/** The dry run (engine_dryrun.go): a walk without side effects that says which steps would run. */
module DryRun {
  import opened Common
  import opened Conditions
  import opened StepTree
  import opened RunStore
  import opened RunRoutes
  import opened RunResume

  datatype StepKind = ActionKind | DelayKind | ConditionKind | SplitKind

  datatype RowStatus = Run | Skip

  datatype Reason = NoReason | GateClosed | BranchNotTaken | SplitPreview(percentA: int)

  datatype Row = Row(stepId: StepId, kind: StepKind, status: RowStatus, reason: Reason, branch: Option<Branch>)
  {
    predicate IsLeaf() { kind.ActionKind? || kind.DelayKind? }
  }

  function KindOf(step: Step): StepKind {
    match step
    case Action(_) => ActionKind
    case Delay(_, _) => DelayKind
    case Condition(_, _, _, _) => ConditionKind
    case Split(_, _, _, _) => SplitKind
  }

  function SkipRow(step: Step, reason: Reason): Row { Row(step.id, KindOf(step), Skip, reason, None) }

  /* ---- The rows, as a function ---- */

  function Rows(steps: seq<Step>, i: nat, fields: Fields, compare: Comparison, reached: bool, reason: Reason): seq<Row>
    requires i <= |steps|
    decreases steps, 1, |steps| - i
  {
    if i == |steps| then []
    else StepRows(steps[i], fields, compare, reached, reason) + Rows(steps, i + 1, fields, compare, reached, reason)
  }

  function StepRows(step: Step, fields: Fields, compare: Comparison, reached: bool, reason: Reason): seq<Row>
    decreases step, 2
  {
    if !step.IsFork() then
      [if reached then Row(step.id, KindOf(step), Run, NoReason, None) else SkipRow(step, reason)]
    else if !reached then
      [SkipRow(step, reason)]
      + Rows(step.yesSteps, 0, fields, compare, false, reason) + Rows(step.noSteps, 0, fields, compare, false, reason)
    else
      var yes := step.Split? || (step.condition.Some? && EvaluateConditions(step.condition.value, fields, compare));
      var note := if step.Split? then SplitPreview(step.percentA.GetOr(DEFAULT_PERCENT_A)) else NoReason;
      [Row(step.id, KindOf(step), Run, note, Some(if yes then Yes else No))]
      + Rows(step.yesSteps, 0, fields, compare, yes, BranchNotTaken)
      + Rows(step.noSteps, 0, fields, compare, !yes, BranchNotTaken)
  }

  /* ---- The code ---- */

  class Report {
    var rows: seq<Row>

    constructor ()
      ensures rows == []
    {
      rows := [];
    }

    /** dryWalkSteps. */
    method Walk(steps: seq<Step>, fields: Fields, compare: Comparison, reached: bool, reason: Reason)
      modifies this
      ensures rows == old(rows) + Rows(steps, 0, fields, compare, reached, reason)
      decreases steps, 2
    {
      for i := 0 to |steps|
        invariant old(rows) + Rows(steps, 0, fields, compare, reached, reason)
               == rows + Rows(steps, i, fields, compare, reached, reason)
      {
        ghost var before := rows;
        WalkStep(steps[i], fields, compare, reached, reason);
        Assoc(before, StepRows(steps[i], fields, compare, reached, reason), Rows(steps, i + 1, fields, compare, reached, reason));
      }
    }

    /** One turn of the loop. */
    method WalkStep(step: Step, fields: Fields, compare: Comparison, reached: bool, reason: Reason)
      modifies this
      ensures rows == old(rows) + StepRows(step, fields, compare, reached, reason)
      decreases step, 1
    {
      match step {
        case Action(id) =>
          rows := rows + [if reached then Row(id, ActionKind, Run, NoReason, None) else Row(id, ActionKind, Skip, reason, None)];
        case Delay(id, _) =>
          rows := rows + [if reached then Row(id, DelayKind, Run, NoReason, None) else Row(id, DelayKind, Skip, reason, None)];
        case Split(id, percentA, _, _) =>
          if reached {
            WalkFork(step, Row(id, SplitKind, Run, SplitPreview(percentA.GetOr(DEFAULT_PERCENT_A)), Some(Yes)),
                     fields, compare, true, false, BranchNotTaken);
          } else {
            WalkFork(step, Row(id, SplitKind, Skip, reason, None), fields, compare, false, false, reason);
          }
        case Condition(id, condition, _, _) =>
          if reached {
            var yes := false;
            if condition.Some? {
              yes := EvaluateConditions(condition.value, fields, compare);
            }
            WalkFork(step, Row(id, ConditionKind, Run, NoReason, Some(if yes then Yes else No)), fields, compare, yes, !yes, BranchNotTaken);
          } else {
            WalkFork(step, Row(id, ConditionKind, Skip, reason, None), fields, compare, false, false, reason);
          }
      }
    }

    /** A fork's own row, then its yes side, then its no side. */
    method WalkFork(step: Step, row: Row, fields: Fields, compare: Comparison, yes: bool, no: bool, reason: Reason)
      requires step.IsFork()
      modifies this
      ensures rows == old(rows) + ([row] + Rows(step.yesSteps, 0, fields, compare, yes, reason)
                                   + Rows(step.noSteps, 0, fields, compare, no, reason))
      decreases step, 0
    {
      rows := rows + [row];
      Walk(step.yesSteps, fields, compare, yes, reason);
      Walk(step.noSteps, fields, compare, no, reason);
    }
  }

  /* ---- One row per step, in pre-order ---- */

  function Preorder(steps: seq<Step>, i: nat): seq<(StepId, StepKind)>
    requires i <= |steps|
    decreases steps, 1, |steps| - i
  {
    if i == |steps| then [] else StepPreorder(steps[i]) + Preorder(steps, i + 1)
  }

  function StepPreorder(step: Step): seq<(StepId, StepKind)>
    decreases step, 2
  {
    [(step.id, KindOf(step))] + (if step.IsFork() then Preorder(step.yesSteps, 0) + Preorder(step.noSteps, 0) else [])
  }

  function Heads(rows: seq<Row>): (heads: seq<(StepId, StepKind)>)
    ensures |heads| == |rows|
  {
    seq(|rows|, i requires 0 <= i < |rows| => (rows[i].stepId, rows[i].kind))
  }

  lemma HeadsConcat(a: seq<Row>, b: seq<Row>)
    ensures Heads(a + b) == Heads(a) + Heads(b)
  {
  }

  lemma {:induction false} RowsInPreorder(steps: seq<Step>, i: nat, fields: Fields, compare: Comparison, reached: bool, reason: Reason)
    requires i <= |steps|
    ensures Heads(Rows(steps, i, fields, compare, reached, reason)) == Preorder(steps, i)
    decreases steps, 1, |steps| - i
  {
    if i < |steps| {
      StepRowsInPreorder(steps[i], fields, compare, reached, reason);
      RowsInPreorder(steps, i + 1, fields, compare, reached, reason);
      HeadsConcat(StepRows(steps[i], fields, compare, reached, reason), Rows(steps, i + 1, fields, compare, reached, reason));
    }
  }

  lemma {:induction false} StepRowsInPreorder(step: Step, fields: Fields, compare: Comparison, reached: bool, reason: Reason)
    ensures Heads(StepRows(step, fields, compare, reached, reason)) == StepPreorder(step)
    decreases step, 2
  {
    if step.IsFork() {
      var yes := reached && (step.Split? || (step.condition.Some? && EvaluateConditions(step.condition.value, fields, compare)));
      var below := if reached then BranchNotTaken else reason;
      RowsInPreorder(step.yesSteps, 0, fields, compare, yes, below);
      RowsInPreorder(step.noSteps, 0, fields, compare, reached && !yes, below);
      var note := if step.Split? then SplitPreview(step.percentA.GetOr(DEFAULT_PERCENT_A)) else NoReason;
      var row := if reached then Row(step.id, KindOf(step), Run, note, Some(if yes then Yes else No)) else SkipRow(step, reason);
      ForkRowHeads(row, Rows(step.yesSteps, 0, fields, compare, yes, below), Rows(step.noSteps, 0, fields, compare, reached && !yes, below));
    }
  }

  lemma ForkRowHeads(row: Row, a: seq<Row>, b: seq<Row>)
    ensures Heads([row] + a + b) == [(row.stepId, row.kind)] + (Heads(a) + Heads(b))
  {
  }

  /* ---- As many action and delay rows as countStepsList counts ---- */

  function CountStepsList(steps: seq<Step>, i: nat): nat
    requires i <= |steps|
    decreases steps, |steps| - i
  {
    if i == |steps| then 0
    else
      (match steps[i]
       case Condition(_, _, yes, no) => CountStepsList(yes, 0) + CountStepsList(no, 0)
       case Split(_, _, yes, no) => CountStepsList(yes, 0) + CountStepsList(no, 0)
       case _ => 1)
      + CountStepsList(steps, i + 1)
  }

  function LeafHeads(heads: seq<(StepId, StepKind)>): nat {
    if heads == [] then 0
    else LeafHeads(heads[1..]) + (if heads[0].1.ActionKind? || heads[0].1.DelayKind? then 1 else 0)
  }

  lemma {:induction false} LeafHeadsConcat(a: seq<(StepId, StepKind)>, b: seq<(StepId, StepKind)>)
    ensures LeafHeads(a + b) == LeafHeads(a) + LeafHeads(b)
  {
    if a == [] {
      assert a + b == b;
    } else {
      assert (a + b)[1..] == a[1..] + b;
      LeafHeadsConcat(a[1..], b);
    }
  }

  lemma {:induction false} PreorderCount(steps: seq<Step>, i: nat)
    requires i <= |steps|
    ensures LeafHeads(Preorder(steps, i)) == CountStepsList(steps, i)
    decreases steps, |steps| - i
  {
    if i < |steps| {
      var step := steps[i];
      PreorderCount(steps, i + 1);
      LeafHeadsConcat(StepPreorder(step), Preorder(steps, i + 1));
      if step.IsFork() {
        PreorderCount(step.yesSteps, 0);
        PreorderCount(step.noSteps, 0);
        LeafHeadsConcat(Preorder(step.yesSteps, 0), Preorder(step.noSteps, 0));
        LeafHeadsConcat([(step.id, KindOf(step))], Preorder(step.yesSteps, 0) + Preorder(step.noSteps, 0));
      }
    }
  }

  /** Whatever the conditions say: one row per step in pre-order, and as many action and delay rows as countStepsList counts. */
  lemma OneRowPerStep(steps: seq<Step>, fields: Fields, compare: Comparison, reached: bool, reason: Reason)
    ensures Heads(Rows(steps, 0, fields, compare, reached, reason)) == Preorder(steps, 0)
    ensures LeafHeads(Heads(Rows(steps, 0, fields, compare, reached, reason))) == CountStepsList(steps, 0)
  {
    RowsInPreorder(steps, 0, fields, compare, reached, reason);
    PreorderCount(steps, 0);
  }

  /* ---- Agreement with the executor ---- */

  /** The action and delay rows marked "run", in order. */
  function RunIds(rows: seq<Row>): seq<StepId> {
    if rows == [] then []
    else (if rows[0].IsLeaf() && rows[0].status.Run? then [rows[0].stepId] else []) + RunIds(rows[1..])
  }

  lemma {:induction false} RunIdsConcat(a: seq<Row>, b: seq<Row>)
    ensures RunIds(a + b) == RunIds(a) + RunIds(b)
  {
    if a == [] {
      assert a + b == b;
    } else {
      assert (a + b)[1..] == a[1..] + b;
      RunIdsConcat(a[1..], b);
    }
  }

  function IdsOf(leaves: seq<Leaf>): seq<StepId> {
    seq(|leaves|, i requires 0 <= i < |leaves| => leaves[i].step.id)
  }

  lemma IdsConcat(a: seq<Leaf>, b: seq<Leaf>)
    ensures IdsOf(a + b) == IdsOf(a) + IdsOf(b)
  {
  }

  /** Every split of the tree takes A in this run. */
  predicate SplitsTakeA(steps: seq<Step>, i: nat, forks: Forks)
    requires i <= |steps|
    decreases steps, |steps| - i
  {
    i == |steps|
    || (&& (steps[i].Split? ==> forks.roll(steps[i].id) < steps[i].percentA.GetOr(DEFAULT_PERCENT_A))
        && (steps[i].IsFork() ==> SplitsTakeA(steps[i].yesSteps, 0, forks) && SplitsTakeA(steps[i].noSteps, 0, forks))
        && SplitsTakeA(steps, i + 1, forks))
  }

  /** The executor's conditions read what the dry run reads. */
  ghost predicate SameReading(forks: Forks, fields: Fields, compare: Comparison) {
    forall p, g :: forks.condition(p, g) == EvaluateConditions(g, fields, compare)
  }

  /** A part that is not reached marks nothing "run". */
  lemma {:induction false} UnreachedRunsNothing(steps: seq<Step>, i: nat, fields: Fields, compare: Comparison, reason: Reason)
    requires i <= |steps|
    ensures RunIds(Rows(steps, i, fields, compare, false, reason)) == []
    decreases steps, |steps| - i
  {
    if i < |steps| {
      var step := steps[i];
      UnreachedRunsNothing(steps, i + 1, fields, compare, reason);
      RunIdsConcat(StepRows(step, fields, compare, false, reason), Rows(steps, i + 1, fields, compare, false, reason));
      if step.IsFork() {
        var a, b := Rows(step.yesSteps, 0, fields, compare, false, reason), Rows(step.noSteps, 0, fields, compare, false, reason);
        UnreachedRunsNothing(step.yesSteps, 0, fields, compare, reason);
        UnreachedRunsNothing(step.noSteps, 0, fields, compare, reason);
        RunIdsConcat([SkipRow(step, reason)], a);
        RunIdsConcat([SkipRow(step, reason)] + a, b);
      }
    }
  }

  lemma {:induction false} ReachedRunsPlan(steps: seq<Step>, i: nat, parent: Path, branch: Branch,
                                           fields: Fields, compare: Comparison, reason: Reason, forks: Forks)
    requires i <= |steps| && SplitsTakeA(steps, i, forks) && SameReading(forks, fields, compare)
    ensures RunIds(Rows(steps, i, fields, compare, true, reason)) == IdsOf(Plan(steps, i, parent, branch, {}, forks))
    decreases steps, |steps| - i, 1
  {
    if i < |steps| {
      ReachedStepRunsPlan(steps, i, BuildStepPath(parent, branch, i), fields, compare, reason, forks);
      ReachedRunsPlan(steps, i + 1, parent, branch, fields, compare, reason, forks);
      RunIdsConcat(StepRows(steps[i], fields, compare, true, reason), Rows(steps, i + 1, fields, compare, true, reason));
      IdsConcat(StepPlan(steps[i], BuildStepPath(parent, branch, i), {}, forks), Plan(steps, i + 1, parent, branch, {}, forks));
    }
  }

  lemma {:induction false} ReachedStepRunsPlan(steps: seq<Step>, i: nat, path: Path,
                                               fields: Fields, compare: Comparison, reason: Reason, forks: Forks)
    requires i < |steps| && SplitsTakeA(steps, i, forks) && SameReading(forks, fields, compare)
    ensures RunIds(StepRows(steps[i], fields, compare, true, reason)) == IdsOf(StepPlan(steps[i], path, {}, forks))
    decreases steps, |steps| - i, 0
  {
    var step := steps[i];
    if step.IsFork() {
      ForkRunIds(step, fields, compare, reason);
      if TakesYes(step, path, {}, forks) {
        ReachedRunsPlan(step.yesSteps, 0, path, Yes, fields, compare, BranchNotTaken, forks);
        UnreachedRunsNothing(step.noSteps, 0, fields, compare, BranchNotTaken);
      } else {
        UnreachedRunsNothing(step.yesSteps, 0, fields, compare, BranchNotTaken);
        ReachedRunsPlan(step.noSteps, 0, path, No, fields, compare, BranchNotTaken, forks);
      }
    }
  }

  /** A reached fork's own row runs no leaf; its branches run theirs. */
  lemma ForkRunIds(step: Step, fields: Fields, compare: Comparison, reason: Reason)
    requires step.IsFork()
    ensures var yes := step.Split? || (step.condition.Some? && EvaluateConditions(step.condition.value, fields, compare));
            RunIds(StepRows(step, fields, compare, true, reason))
            == RunIds(Rows(step.yesSteps, 0, fields, compare, yes, BranchNotTaken))
               + RunIds(Rows(step.noSteps, 0, fields, compare, !yes, BranchNotTaken))
  {
    var yes := step.Split? || (step.condition.Some? && EvaluateConditions(step.condition.value, fields, compare));
    var note := if step.Split? then SplitPreview(step.percentA.GetOr(DEFAULT_PERCENT_A)) else NoReason;
    ForkRowRunIds(Row(step.id, KindOf(step), Run, note, Some(if yes then Yes else No)),
                  Rows(step.yesSteps, 0, fields, compare, yes, BranchNotTaken),
                  Rows(step.noSteps, 0, fields, compare, !yes, BranchNotTaken));
  }

  lemma ForkRowRunIds(row: Row, a: seq<Row>, b: seq<Row>)
    requires !row.IsLeaf()
    ensures RunIds([row] + a + b) == RunIds(a) + RunIds(b)
  {
    RunIdsConcat([row], a);
    RunIdsConcat([row] + a, b);
  }

  /* ---- Branches and reasons ---- */

  /** What a row of a part that is not reached says: skipped, for the reason handed down, on no branch. */
  lemma {:induction false} UnreachedRows(steps: seq<Step>, i: nat, fields: Fields, compare: Comparison, reason: Reason)
    requires i <= |steps|
    ensures forall r | r in Rows(steps, i, fields, compare, false, reason) :: r.status.Skip? && r.reason == reason && r.branch.None?
    decreases steps, |steps| - i
  {
    if i < |steps| {
      var step := steps[i];
      UnreachedRows(steps, i + 1, fields, compare, reason);
      if step.IsFork() {
        UnreachedRows(step.yesSteps, 0, fields, compare, reason);
        UnreachedRows(step.noSteps, 0, fields, compare, reason);
      }
    }
  }

  /** What a row of a reached part may say. */
  predicate TellsWhy(r: Row) {
    if r.status.Skip? then r.reason.BranchNotTaken? && r.branch.None?
    else match r.kind
         case ConditionKind => r.reason.NoReason? && (r.branch == Some(Yes) || r.branch == Some(No))
         case SplitKind => r.reason.SplitPreview? && r.branch == Some(Yes)
         case _ => r.reason.NoReason? && r.branch.None?
  }

  /** In a reached part every skipped row was not taken, and every fork that runs names its branch. */
  lemma {:induction false} ReachedRows(steps: seq<Step>, i: nat, fields: Fields, compare: Comparison, reason: Reason)
    requires i <= |steps|
    ensures forall r | r in Rows(steps, i, fields, compare, true, reason) :: TellsWhy(r)
    decreases steps, |steps| - i
  {
    if i < |steps| {
      var step := steps[i];
      ReachedRows(steps, i + 1, fields, compare, reason);
      if step.IsFork() {
        ReachedRows(step.yesSteps, 0, fields, compare, BranchNotTaken);
        ReachedRows(step.noSteps, 0, fields, compare, BranchNotTaken);
        UnreachedRows(step.yesSteps, 0, fields, compare, BranchNotTaken);
        UnreachedRows(step.noSteps, 0, fields, compare, BranchNotTaken);
      }
    }
  }

  /** The forks marked "run" with the branch their row names, in order. */
  function RunBranches(rows: seq<Row>): seq<(StepId, Branch)> {
    if rows == [] then []
    else (if rows[0].status.Run? && rows[0].branch.Some? then [(rows[0].stepId, rows[0].branch.value)] else []) + RunBranches(rows[1..])
  }

  lemma {:induction false} RunBranchesConcat(a: seq<Row>, b: seq<Row>)
    ensures RunBranches(a + b) == RunBranches(a) + RunBranches(b)
  {
    if a == [] {
      assert a + b == b;
    } else {
      assert (a + b)[1..] == a[1..] + b;
      RunBranchesConcat(a[1..], b);
    }
  }

  /** Rows that skip name no branch. */
  lemma {:induction false} SkippedNameNone(rows: seq<Row>)
    requires forall r | r in rows :: r.status.Skip?
    ensures RunBranches(rows) == []
  {
    if rows != [] { SkippedNameNone(rows[1..]); }
  }

  /** The forks an executor's walk comes through, with the side it takes at each. */
  function SidesTaken(steps: seq<Step>, i: nat, parent: Path, branch: Branch, forks: Forks): seq<(StepId, Branch)>
    requires i <= |steps|
    decreases steps, 1, |steps| - i
  {
    if i == |steps| then []
    else StepSidesTaken(steps[i], BuildStepPath(parent, branch, i), forks) + SidesTaken(steps, i + 1, parent, branch, forks)
  }

  function StepSidesTaken(step: Step, path: Path, forks: Forks): seq<(StepId, Branch)>
    decreases step, 2
  {
    if !step.IsFork() then []
    else if TakesYes(step, path, {}, forks) then [(step.id, Yes)] + SidesTaken(step.yesSteps, 0, path, Yes, forks)
    else [(step.id, No)] + SidesTaken(step.noSteps, 0, path, No, forks)
  }

  lemma {:induction false} BranchesAgree(steps: seq<Step>, i: nat, parent: Path, branch: Branch,
                                         fields: Fields, compare: Comparison, reason: Reason, forks: Forks)
    requires i <= |steps| && SplitsTakeA(steps, i, forks) && SameReading(forks, fields, compare)
    ensures RunBranches(Rows(steps, i, fields, compare, true, reason)) == SidesTaken(steps, i, parent, branch, forks)
    decreases steps, |steps| - i, 1
  {
    if i < |steps| {
      StepBranchesAgree(steps, i, BuildStepPath(parent, branch, i), fields, compare, reason, forks);
      BranchesAgree(steps, i + 1, parent, branch, fields, compare, reason, forks);
      RunBranchesConcat(StepRows(steps[i], fields, compare, true, reason), Rows(steps, i + 1, fields, compare, true, reason));
    }
  }

  lemma {:induction false} StepBranchesAgree(steps: seq<Step>, i: nat, path: Path,
                                             fields: Fields, compare: Comparison, reason: Reason, forks: Forks)
    requires i < |steps| && SplitsTakeA(steps, i, forks) && SameReading(forks, fields, compare)
    ensures RunBranches(StepRows(steps[i], fields, compare, true, reason)) == StepSidesTaken(steps[i], path, forks)
    decreases steps, |steps| - i, 0
  {
    var step := steps[i];
    if step.IsFork() {
      ForkRunBranches(step, fields, compare, reason);
      if TakesYes(step, path, {}, forks) {
        BranchesAgree(step.yesSteps, 0, path, Yes, fields, compare, BranchNotTaken, forks);
        UnreachedNamesNone(step.noSteps, fields, compare, BranchNotTaken);
      } else {
        UnreachedNamesNone(step.yesSteps, fields, compare, BranchNotTaken);
        BranchesAgree(step.noSteps, 0, path, No, fields, compare, BranchNotTaken, forks);
      }
    }
  }

  /** A reached fork's row names the side it takes. */
  lemma ForkRunBranches(step: Step, fields: Fields, compare: Comparison, reason: Reason)
    requires step.IsFork()
    ensures var yes := step.Split? || (step.condition.Some? && EvaluateConditions(step.condition.value, fields, compare));
            RunBranches(StepRows(step, fields, compare, true, reason))
            == [(step.id, if yes then Yes else No)] + RunBranches(Rows(step.yesSteps, 0, fields, compare, yes, BranchNotTaken))
               + RunBranches(Rows(step.noSteps, 0, fields, compare, !yes, BranchNotTaken))
  {
    var yes := step.Split? || (step.condition.Some? && EvaluateConditions(step.condition.value, fields, compare));
    var note := if step.Split? then SplitPreview(step.percentA.GetOr(DEFAULT_PERCENT_A)) else NoReason;
    ForkRowNames(Row(step.id, KindOf(step), Run, note, Some(if yes then Yes else No)),
                 Rows(step.yesSteps, 0, fields, compare, yes, BranchNotTaken),
                 Rows(step.noSteps, 0, fields, compare, !yes, BranchNotTaken));
  }

  /** A side that is not taken names no branch. */
  lemma UnreachedNamesNone(steps: seq<Step>, fields: Fields, compare: Comparison, reason: Reason)
    ensures RunBranches(Rows(steps, 0, fields, compare, false, reason)) == []
  {
    UnreachedRows(steps, 0, fields, compare, reason);
    SkippedNameNone(Rows(steps, 0, fields, compare, false, reason));
  }

  lemma ForkRowNames(row: Row, a: seq<Row>, b: seq<Row>)
    requires row.status.Run? && row.branch.Some?
    ensures RunBranches([row] + a + b) == [(row.stepId, row.branch.value)] + RunBranches(a) + RunBranches(b)
  {
    RunBranchesConcat([row], a);
    RunBranchesConcat([row] + a, b);
    assert [row][1..] == [];
  }

  /**
   The preview is the run: with conditions reading the same data at every attempt and every split taking A, the rows
   marked "run" are, in order, exactly the steps any completed run commits, however it was interrupted, and each fork
   marked "run" names the side taken there.
   */
  lemma DryRunAgrees(wf: Workflow, events: seq<Event>, condition: (Path, ConditionGroup) -> bool,
                     fields: Fields, compare: Comparison, reason: Reason)
    requires SameConditions(events, condition) && After(wf, events).db.run.status.Completed?
    requires SplitsTakeA(wf.steps, 0, Forks(condition, wf.roll)) && SameReading(Forks(condition, wf.roll), fields, compare)
    ensures var plan := RootPlan(wf.steps, {}, Forks(condition, wf.roll));
            && Committed(After(wf, events).db.logs) == PathsOf(plan)
            && RunIds(Rows(wf.steps, 0, fields, compare, true, reason)) == IdsOf(plan)
    ensures RunBranches(Rows(wf.steps, 0, fields, compare, true, reason)) == SidesTaken(wf.steps, 0, [], Root, Forks(condition, wf.roll))
  {
    BranchesAgree(wf.steps, 0, [], Root, fields, compare, reason, Forks(condition, wf.roll));
    var k := AlwaysOnFreshPlan(wf, events, condition);
    ReachedRunsPlan(wf.steps, 0, [], Root, fields, compare, reason, Forks(condition, wf.roll));
  }
}
