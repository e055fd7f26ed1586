/** Concrete runs in which a promise one might expect fails. */
module RunWitnesses {
  import opened Common
  import opened Conditions
  import opened StepTree
  import opened RunStore
  import opened RunLogs
  import opened RunRoutes
  import opened RunVerdicts
  import opened RunExact

  /* ---- An event claimed, then lost to the clock ---- */

  const OPENED := Delay("wait", Some(DelayParams(0, "", "email_opened", 10)))

  const WAIT := Leaf([Segment(Root, 0)], OPENED)

  /** Wait at most ten seconds for the mail to be opened. */
  function WaitWorkflow(): Workflow { Workflow([OPENED], _ => 0) }

  function ClockEnv(now: Time): Env {
    Env((_, _) => false, _ => Tick(9, Succeeded(NoOutput), now, None, true), true, true, true)
  }

  function ParkedRow(): ActionLog { ActionLog(WAIT.path, DelayRow, LogWaiting, FreshWait(10), 1) }

  function ParkedDb(): Db {
    Db(RunRow(Waiting, 0, None, Some(10), {}, 0), [ParkedRow()], map[WAIT.path := EventWait(10, false)])
  }

  lemma WaitPlan(started: set<Path>, now: Time)
    ensures RootPlan(WaitWorkflow().steps, started, ForksOf(WaitWorkflow(), ClockEnv(now))) == [WAIT]
  {
    var steps, forks := WaitWorkflow().steps, ForksOf(WaitWorkflow(), ClockEnv(now));
    assert BuildStepPath([], Root, 0) == WAIT.path;
    assert Plan(steps, 1, [], Root, started, forks) == [];
  }

  lemma Parks()
    ensures Attempt(WaitWorkflow(), NewRun(), ClockEnv(0)) == ParkedDb()
  {
    WaitPlan(StartedPaths(NewRun().logs), 0);
    assert [] + [ParkedRow()] == [ParkedRow()];
    OneLeafRun(IndexOf(WaitWorkflow()), Claimed(NewRun()), WAIT, ClockEnv(0));
  }

  /** The same run once its event was claimed and the sweep woke it. */
  function WokenDb(): Db {
    Db(RunRow(Pending, 0, Some(10), None, {}, 0), [ParkedRow()], map[WAIT.path := EventWait(10, true)])
  }

  lemma TimesOut()
    ensures var db := Attempt(WaitWorkflow(), WokenDb(), ClockEnv(11));
            && db.run.status.Completed? && |db.logs| == 1 && db.logs[0].status.LogSuccess?
            && db.logs[0].output.happened == Some(false) && db.logs[0].output.timedOut == Some(true)
  {
    var wf, db, env := WaitWorkflow(), WokenDb(), ClockEnv(11);
    WaitPlan(StartedPaths(db.logs), 11);
    assert FindWaiting(db.logs, WAIT.path) == 0 && !IsDone(db.logs, WAIT.path);
    OneLeafRun(IndexOf(wf), Claimed(db), WAIT, env);
  }

  /** The schedule, event by event. */
  function LosingEvents(): seq<Event> {
    [AttemptRun(ClockEnv(0)), ClaimEvent(WAIT.path, 5), SweepWake(10), SatisfyRun(WAIT.path, 11), AttemptRun(ClockEnv(11))]
  }

  lemma LosingStep(i: nat)
    requires i < 5
    ensures After(WaitWorkflow(), LosingEvents()[..i + 1]) == Step1(WaitWorkflow(), After(WaitWorkflow(), LosingEvents()[..i]), LosingEvents()[i])
  {
    var events := LosingEvents();
    assert events[..i + 1] == events[..i] + [events[i]];
    AfterOneMore(WaitWorkflow(), events[..i], events[i]);
  }

  lemma LosingClaim()
    ensures After(WaitWorkflow(), LosingEvents()[..2]) == World(ClaimWait(ParkedDb(), WAIT.path), {WAIT.path})
  {
    LosingStep(0);
    LosingStep(1);
    Parks();
    assert LosingEvents()[..0] == [];
    assert Claimable(ParkedDb(), WAIT.path, 5);
    assert {} + {WAIT.path} == {WAIT.path};
  }

  lemma LosingWake()
    ensures After(WaitWorkflow(), LosingEvents()[..4]) == World(WokenDb(), {})
  {
    LosingClaim();
    LosingStep(2);
    LosingStep(3);
    assert WakeDue(ClaimWait(ParkedDb(), WAIT.path), 10) == WokenDb();
    assert {WAIT.path} - {WAIT.path} == {};
  }

  /**
   The event arrives and is claimed in time, at 5; the sweep at 10 gets to the run before the claim is acted on, at 11.
   The row stays unstamped, and the step ends as if the event had never come.
   */
  lemma ClaimedEventLost()
    ensures After(WaitWorkflow(), LosingEvents()[..2]).claimed == {WAIT.path}
    ensures var acted := After(WaitWorkflow(), LosingEvents()[..4]);
            acted == World(WokenDb(), {}) && !EventSatisfiedFromLog(acted.db.logs[0].output)
    ensures var end := After(WaitWorkflow(), LosingEvents()).db;
            end.run.status.Completed? && |end.logs| == 1 && end.logs[0].output.WaitOutput? && end.logs[0].output.happened == Some(false)
  {
    LosingClaim();
    LosingWake();
    LosingStep(4);
    TimesOut();
    assert LosingEvents()[..5] == LosingEvents();
  }

  lemma AfterOneMore(wf: Workflow, events: seq<Event>, e: Event)
    ensures After(wf, events + [e]) == Step1(wf, After(wf, events), e)
  {
    assert (events + [e])[..|events|] == events;
  }

  /* ---- A condition that flips behind a committed step ---- */

  const MAIL := Leaf([Segment(Root, 0), Segment(Yes, 0)], Action("a"))
  const SECOND := Leaf([Segment(Root, 1)], Action("b"))
  const THIRD := Leaf([Segment(Root, 2)], Action("c"))

  /** An If with an empty no side, then two more actions. */
  function RejoinWorkflow(): Workflow {
    Workflow([Condition("if", Some(HAS_EMAIL), [Action("a")], []), Action("b"), Action("c")], _ => 0)
  }

  /** An attempt over that contact; at the first, c fails for now. */
  function RejoinEnv(hasEmail: bool): Env {
    Env((_, g) => EvaluateConditions(g, ContactData(hasEmail), IsPresent()),
        (p: Path) => Tick(9, if !hasEmail && p == THIRD.path then RetryableError else Succeeded(NoOutput), 0, None, false),
        true, true, true)
  }

  lemma RejoinPlan(started: set<Path>, forks: Forks)
    requires MAIL.path !in started
    ensures RootPlan(RejoinWorkflow().steps, started, forks)
         == if forks.condition([Segment(Root, 0)], HAS_EMAIL) then [MAIL, SECOND, THIRD] else [SECOND, THIRD]
  {
    var steps := RejoinWorkflow().steps;
    var step, top := steps[0], [Segment(Root, 0)];
    assert BuildStepPath([], Root, 0) == top && BuildStepPath([], Root, 1) == SECOND.path && BuildStepPath([], Root, 2) == THIRD.path;
    assert top + [Segment(Yes, 0)] == MAIL.path;
    assert AllLeaves(step.yesSteps, 1, top, Yes) == [] && AllLeaves(step.yesSteps, 0, top, Yes) == [MAIL];
    assert AllLeaves(step.noSteps, 0, top, No) == [];
    assert TakesYes(step, top, started, forks) <==> forks.condition(top, HAS_EMAIL);
    assert Plan(steps, 3, [], Root, started, forks) == [];
    assert Plan(steps, 2, [], Root, started, forks) == [THIRD];
    assert Plan(steps, 1, [], Root, started, forks) == [SECOND, THIRD];
    assert Plan(step.noSteps, 0, top, No, started, forks) == [];
    assert Plan(step.yesSteps, 1, top, Yes, started, forks) == [];
    assert Plan(step.yesSteps, 0, top, Yes, started, forks) == [MAIL];
  }

  lemma ActSucceeds(index: map<Path, StepId>, db: Db, leaf: Leaf, rest: seq<Leaf>, env: Env) returns (next: Db)
    requires leaf.step.Action? && !IsDone(db.logs, leaf.path)
    requires env.tick(leaf.path).writes == 9 && env.tick(leaf.path).exec == Succeeded(NoOutput)
    ensures RunLeaves(index, db, [leaf] + rest, env) == RunLeaves(index, next, rest, env)
    ensures next.logs == db.logs + [ActionLog(leaf.path, ActionRow, LogSuccess, NoOutput, db.run.retryCount + 1)]
    ensures next.run.retryCount == 0 && next.run.status == db.run.status
  {
    next := LeafOp(index, db, leaf, env.tick(leaf.path)).0;
    assert ([leaf] + rest)[1..] == rest;
  }

  lemma SkipsDone(index: map<Path, StepId>, db: Db, leaf: Leaf, rest: seq<Leaf>, env: Env)
    requires leaf.step.Action? && IsDone(db.logs, leaf.path)
    ensures RunLeaves(index, db, [leaf] + rest, env) == RunLeaves(index, db, rest, env)
  {
    assert ([leaf] + rest)[1..] == rest;
  }

  function Row(leaf: Leaf, status: LogStatus, attempt: nat): ActionLog { ActionLog(leaf.path, ActionRow, status, NoOutput, attempt) }

  lemma AttemptWalks(wf: Workflow, db: Db, env: Env, plan: seq<Leaf>)
    requires db.run.status.Pending? && env.locks && env.loads && env.finishLands && wf.steps != []
    requires RootPlan(wf.steps, StartedPaths(db.logs), ForksOf(wf, env)) == plan
    ensures var (after, o) := RunLeaves(IndexOf(wf), Claimed(db), plan, env);
            Attempt(wf, db, env) == if o.Proceed? then after.(run := after.run.(status := Completed)) else after
  {
  }

  lemma FirstRejoinWalk(index: map<Path, StepId>, db: Db)
    requires db.logs == [] && db.run.retryCount == 0
    ensures var (next, o) := RunLeaves(index, db, [SECOND, THIRD], RejoinEnv(false));
            && o.Errored? && next.run.status.Pending? && next.run.retryCount == 1
            && next.logs == [Row(SECOND, LogSuccess, 1), Row(THIRD, LogRetrying, 1)]
  {
    var env := RejoinEnv(false);
    var mid := ActSucceeds(index, db, SECOND, [THIRD], env);
    assert [SECOND] + [THIRD] == [SECOND, THIRD];
    assert mid.logs == [Row(SECOND, LogSuccess, 1)];
    assert SECOND.path[0] != THIRD.path[0] && !IsDone(mid.logs, THIRD.path);
    OneLeafRun(index, mid, THIRD, env);
    assert [Row(SECOND, LogSuccess, 1)] + [Row(THIRD, LogRetrying, 1)] == [Row(SECOND, LogSuccess, 1), Row(THIRD, LogRetrying, 1)];
  }

  lemma FirstRejoinAttempt()
    ensures var db := Attempt(RejoinWorkflow(), NewRun(), RejoinEnv(false));
            && db.run.status.Pending? && db.run.retryCount == 1
            && db.logs == [Row(SECOND, LogSuccess, 1), Row(THIRD, LogRetrying, 1)]
  {
    var wf, env := RejoinWorkflow(), RejoinEnv(false);
    assert StartedPaths(NewRun().logs) == {};
    RejoinPlan({}, ForksOf(wf, env));
    AttemptWalks(wf, NewRun(), env, [SECOND, THIRD]);
    FirstRejoinWalk(IndexOf(wf), Claimed(NewRun()));
  }

  lemma SecondRejoinWalk(index: map<Path, StepId>, db: Db)
    requires db.run.retryCount == 1 && db.logs == [Row(SECOND, LogSuccess, 1), Row(THIRD, LogRetrying, 1)]
    ensures var (next, o) := RunLeaves(index, db, [MAIL, SECOND, THIRD], RejoinEnv(true));
            o.Proceed? && next.logs == db.logs + [Row(MAIL, LogSuccess, 2)] + [Row(THIRD, LogSuccess, 1)]
  {
    var env := RejoinEnv(true);
    PathsDiffer();
    var mid := ActSucceeds(index, db, MAIL, [SECOND, THIRD], env);
    assert [MAIL] + [SECOND, THIRD] == [MAIL, SECOND, THIRD] && [SECOND] + [THIRD] == [SECOND, THIRD] && [THIRD] + [] == [THIRD];
    assert mid.logs[0].path == SECOND.path && mid.logs[0].status.LogSuccess?;
    SkipsDone(index, mid, SECOND, [THIRD], env);
    assert !IsDone(mid.logs, THIRD.path);
    var last := ActSucceeds(index, mid, THIRD, [], env);
  }

  lemma PathsDiffer()
    ensures MAIL.path != SECOND.path && MAIL.path != THIRD.path && SECOND.path != THIRD.path
  {
    assert |MAIL.path| == 2 && |SECOND.path| == 1 && |THIRD.path| == 1 && SECOND.path[0] != THIRD.path[0];
  }

  lemma SecondRejoinAttempt(db: Db)
    requires db.run.status.Pending? && db.run.retryCount == 1
    requires db.logs == [Row(SECOND, LogSuccess, 1), Row(THIRD, LogRetrying, 1)]
    ensures var next := Attempt(RejoinWorkflow(), db, RejoinEnv(true));
            && next.run.status.Completed?
            && next.logs == db.logs + [Row(MAIL, LogSuccess, 2)] + [Row(THIRD, LogSuccess, 1)]
  {
    var wf, env := RejoinWorkflow(), RejoinEnv(true);
    PathsDiffer();
    RejoinPlan(StartedPaths(db.logs), ForksOf(wf, env));
    AttemptWalks(wf, db, env, [MAIL, SECOND, THIRD]);
    SecondRejoinWalk(IndexOf(wf), Claimed(db));
  }

  /**
   Not solid: the no side is empty and two steps follow. The address comes in after b was committed, so the run commits
   b, then a, then c: the steps of no walk in order.
   */
  lemma FlipsBehind()
    ensures var wf, events := RejoinWorkflow(), [AttemptRun(RejoinEnv(false)), AttemptRun(RejoinEnv(true))];
            var db := After(wf, events).db;
            && !Solid(wf.steps, 0, false) && Evaluated(events, IsPresent())
            && db.run.status.Completed? && Committed(db.logs) == [SECOND.path, MAIL.path, THIRD.path]
            && forall c: Verdicts :: !(Committed(db.logs) <= PathsOf(Route(wf, c)))
  {
    var wf := RejoinWorkflow();
    var e0, e1 := AttemptRun(RejoinEnv(false)), AttemptRun(RejoinEnv(true));
    AfterOneMore(wf, [], e0);
    AfterOneMore(wf, [e0], e1);
    assert [] + [e0] == [e0] && [e0] + [e1] == [e0, e1];
    FirstRejoinAttempt();
    SecondRejoinAttempt(After(wf, [e0]).db);
    RejoinCommitted();
    RejoinEvaluates(false);
    RejoinEvaluates(true);
    forall c: Verdicts ensures !([SECOND.path, MAIL.path, THIRD.path] <= PathsOf(Route(wf, c))) {
      RejoinPlan({}, Forks(c, wf.roll));
      var paths := PathsOf(Route(wf, c));
      assert |MAIL.path| == 2 && |SECOND.path| == 1 && |THIRD.path| == 1;
      assert paths[0] != SECOND.path || paths[1] != MAIL.path;
    }
  }

  lemma RejoinEvaluates(hasEmail: bool)
    ensures Evaluates(RejoinEnv(hasEmail).condition, IsPresent())
  {
    forall n: nat ensures Decided(RejoinEnv(hasEmail).condition, IsPresent(), n) {
      assert DecidedBy(RejoinEnv(hasEmail).condition, IsPresent(), n, ContactData(hasEmail));
    }
  }

  lemma RejoinCommitted()
    ensures var logs := [Row(SECOND, LogSuccess, 1), Row(THIRD, LogRetrying, 1)] + [Row(MAIL, LogSuccess, 2)] + [Row(THIRD, LogSuccess, 1)];
            Committed(logs) == [SECOND.path, MAIL.path, THIRD.path]
  {
    var first := [Row(SECOND, LogSuccess, 1)];
    var two := first + [Row(THIRD, LogRetrying, 1)];
    PathsWithAppend([], Row(SECOND, LogSuccess, 1), LogSuccess);
    PathsWithAppend(first, Row(THIRD, LogRetrying, 1), LogSuccess);
    PathsWithAppend(two, Row(MAIL, LogSuccess, 2), LogSuccess);
    PathsWithAppend(two + [Row(MAIL, LogSuccess, 2)], Row(THIRD, LogSuccess, 1), LogSuccess);
    assert [] + [Row(SECOND, LogSuccess, 1)] == first;
    assert two == [Row(SECOND, LogSuccess, 1), Row(THIRD, LogRetrying, 1)];
  }
}
