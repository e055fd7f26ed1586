/** How a step and an attempt end: for each outcome, exactly the executor results, clocks and retry counts that lead to it. */
module RunOutcomes {
  import opened Common
  import opened StepTree
  import opened RunStore
  import opened RunLogs
  import opened RunRoutes
  import opened RunSafety
  import opened RunTiming
  import opened ResumeState

  /* ---- What a step meets ---- */

  /** The configured end of a delay met now lies ahead. */
  predicate WaitAhead(step: Step, t: Tick) {
    && step.Delay? && step.delay.Some?
    && var d := step.delay.value;
       if d.waitEvent != "" then d.timeoutSec > 0
       else if d.untilField != "" then t.until.Some? && t.until.value > t.now
       else d.durationSec > 0
  }

  /** The executor is called, and its verdict is recorded. */
  predicate Judged(db: Db, leaf: Leaf, t: Tick) {
    leaf.step.Action? && !IsDone(db.logs, leaf.path) && t.writes >= 2
  }

  /** The executor gives up: a permanent error, or an error once three retries are used up. */
  predicate Fails(db: Db, leaf: Leaf, t: Tick) {
    Judged(db, leaf, t) && (t.exec.PermanentError? || (t.exec.RetryableError? && db.run.retryCount >= 3))
  }

  /** The executor reports a passing error while retries are left. */
  predicate Retries(db: Db, leaf: Leaf, t: Tick) {
    Judged(db, leaf, t) && t.exec.RetryableError? && db.run.retryCount < 3
  }

  /** A delay has something to wait for: a deadline ahead, and no stamped event. */
  predicate Parks(db: Db, leaf: Leaf, t: Tick) {
    && leaf.step.Delay? && !IsDone(db.logs, leaf.path)
    && var w := FindWaiting(db.logs, leaf.path);
       if w >= 0 then t.writes >= 1 && !MayFinish(db.logs[w], leaf.step, t)
       else t.writes >= 2 && WaitAhead(leaf.step, t)
  }

  /** The walk goes on to the next step. */
  predicate Passes(db: Db, leaf: Leaf, t: Tick) {
    || IsDone(db.logs, leaf.path)
    || (Judged(db, leaf, t) && t.exec.Succeeded?)
    || (leaf.step.Delay?
        && var w := FindWaiting(db.logs, leaf.path);
           if w >= 0 then MayFinish(db.logs[w], leaf.step, t) && t.writes >= (if leaf.step.IsWaitEvent() then 2 else 1)
           else !WaitAhead(leaf.step, t) && t.writes >= 2)
  }

  lemma ActionEnds(index: map<Path, StepId>, db: Db, leaf: Leaf, t: Tick)
    requires db.run.status.Running? && leaf.step.Action?
    ensures var (next, o) := LeafOp(index, db, leaf, t);
            && (o.Proceed? <==> Passes(db, leaf, t)) && (o.Proceed? ==> next.run.status.Running?)
            && (next.run.status.Failed? <==> Fails(db, leaf, t))
            && (next.run.status.Pending? <==> Retries(db, leaf, t))
            && !next.run.status.Waiting? && !next.run.status.Completed?
  {
  }

  lemma DelayEnds(index: map<Path, StepId>, db: Db, leaf: Leaf, t: Tick)
    requires db.run.status.Running? && leaf.step.Delay?
    ensures var (next, o) := LeafOp(index, db, leaf, t);
            && (o.Proceed? <==> Passes(db, leaf, t)) && (o.Proceed? ==> next.run.status.Running?)
            && (next.run.status.Waiting? <==> Parks(db, leaf, t))
            && (next.run.status.Running? || next.run.status.Waiting?)
  {
  }

  /* ---- What an attempt reaches ---- */

  predicate Walks(wf: Workflow, db: Db, env: Env) {
    (db.run.status.Pending? || db.run.status.Running?) && env.locks && env.loads && wf.steps != []
  }

  function PlanOf(wf: Workflow, db: Db, env: Env): seq<Leaf> {
    RootPlan(wf.steps, StartedPaths(db.logs), ForksOf(wf, env))
  }

  /** The attempt on `db` comes to leaf k of its plan, the tables then being `mid`. */
  ghost predicate Reached(wf: Workflow, db: Db, env: Env, k: nat, mid: Db) {
    && k < |PlanOf(wf, db, env)|
    && RunLeaves(IndexOf(wf), Claimed(db), PlanOf(wf, db, env)[..k], env) == (mid, Proceed)
  }

  function LeafAt(wf: Workflow, db: Db, env: Env, k: nat): Leaf
    requires k < |PlanOf(wf, db, env)|
  {
    PlanOf(wf, db, env)[k]
  }

  function TickAt(wf: Workflow, db: Db, env: Env, k: nat): Tick
    requires k < |PlanOf(wf, db, env)|
  {
    env.tick(PlanOf(wf, db, env)[k].path)
  }

  lemma LeafOfPlan(wf: Workflow, db: Db, env: Env, k: nat)
    requires k < |PlanOf(wf, db, env)|
    ensures IsLeafOf(wf, LeafAt(wf, db, env, k)) && !LeafAt(wf, db, env, k).step.IsFork()
  {
    PlanWithin(wf.steps, 0, [], Root, StartedPaths(db.logs), ForksOf(wf, env));
    AllAreLeaves(wf.steps, 0, [], Root);
  }

  /** A walk goes through all its leaves, or up to the first it does not get past. */
  lemma {:induction false} WalkStops(index: map<Path, StepId>, db: Db, leaves: seq<Leaf>, env: Env) returns (k: nat, mid: Db)
    ensures k <= |leaves| && RunLeaves(index, db, leaves[..k], env) == (mid, Proceed)
    ensures k == |leaves| ==> RunLeaves(index, db, leaves, env) == (mid, Proceed)
    ensures k < |leaves| ==> var last := LeafOp(index, mid, leaves[k], env.tick(leaves[k].path));
                             !last.1.Proceed? && RunLeaves(index, db, leaves, env) == last
    decreases |leaves|
  {
    k, mid := 0, db;
    if leaves != [] {
      var (next, o) := LeafOp(index, db, leaves[0], env.tick(leaves[0].path));
      if o.Proceed? {
        var j, last := WalkStops(index, next, leaves[1..], env);
        k, mid := j + 1, last;
        assert leaves[..k][1..] == leaves[1..][..j] && leaves[..k][0] == leaves[0];
      }
    }
  }

  lemma {:induction false} ProceedsRunning(index: map<Path, StepId>, db: Db, leaves: seq<Leaf>, env: Env)
    requires db.run.status.Running? && forall l | l in leaves :: !l.step.IsFork()
    requires RunLeaves(index, db, leaves, env).1.Proceed?
    ensures RunLeaves(index, db, leaves, env).0.run.status.Running?
    decreases |leaves|
  {
    if leaves != [] {
      var leaf, t := leaves[0], env.tick(leaves[0].path);
      if leaf.step.Action? { ActionEnds(index, db, leaf, t); } else { DelayEnds(index, db, leaf, t); }
      ProceedsRunning(index, LeafOp(index, db, leaf, t).0, leaves[1..], env);
    }
  }

  lemma ReachedRunning(wf: Workflow, db: Db, env: Env, k: nat, mid: Db)
    requires Walks(wf, db, env) && Reached(wf, db, env, k, mid)
    ensures mid.run.status.Running?
  {
    forall l | l in PlanOf(wf, db, env)[..k] ensures !l.step.IsFork() {
      var i :| 0 <= i < k && PlanOf(wf, db, env)[..k][i] == l;
      LeafOfPlan(wf, db, env, i);
    }
    ProceedsRunning(IndexOf(wf), Claimed(db), PlanOf(wf, db, env)[..k], env);
  }

  /** What the reached leaf does: unless it is passed, that is the end of the attempt. */
  lemma ReachedDecides(wf: Workflow, db: Db, env: Env, k: nat, mid: Db)
    requires Walks(wf, db, env) && Reached(wf, db, env, k, mid)
    ensures mid.run.status.Running?
    ensures var leaf, t := LeafAt(wf, db, env, k), TickAt(wf, db, env, k);
            var (next, o) := LeafOp(IndexOf(wf), mid, leaf, t);
            && (leaf.step.Action? || leaf.step.Delay?)
            && (o.Proceed? <==> Passes(mid, leaf, t))
            && (!o.Proceed? ==> Attempt(wf, db, env) == next
                                && RunLeaves(IndexOf(wf), Claimed(db), PlanOf(wf, db, env), env) == (next, o))
  {
    var index, plan, leaf, t := IndexOf(wf), PlanOf(wf, db, env), LeafAt(wf, db, env, k), TickAt(wf, db, env, k);
    LeafOfPlan(wf, db, env, k);
    ReachedRunning(wf, db, env, k, mid);
    if leaf.step.Action? { ActionEnds(index, mid, leaf, t); } else { DelayEnds(index, mid, leaf, t); }
    RunLeavesConcat(index, Claimed(db), plan[..k], plan[k..], env);
    assert plan[..k] + plan[k..] == plan && plan[k..][0] == leaf;
    assert StartedPaths(Claimed(db).logs) == StartedPaths(db.logs);
  }

  /* ---- How an attempt ends ---- */

  ghost predicate SomeFails(wf: Workflow, db: Db, env: Env) {
    exists k, mid :: Reached(wf, db, env, k, mid) && Fails(mid, LeafAt(wf, db, env, k), TickAt(wf, db, env, k))
  }

  ghost predicate SomeRetries(wf: Workflow, db: Db, env: Env) {
    exists k, mid :: Reached(wf, db, env, k, mid) && Retries(mid, LeafAt(wf, db, env, k), TickAt(wf, db, env, k))
  }

  ghost predicate SomeParks(wf: Workflow, db: Db, env: Env) {
    exists k, mid :: Reached(wf, db, env, k, mid) && Parks(mid, LeafAt(wf, db, env, k), TickAt(wf, db, env, k))
  }

  ghost predicate AllPass(wf: Workflow, db: Db, env: Env) {
    forall k, mid :: Reached(wf, db, env, k, mid) ==> Passes(mid, LeafAt(wf, db, env, k), TickAt(wf, db, env, k))
  }

  /** The last leaf an attempt reaches, or none when it passes them all. */
  lemma AttemptStops(wf: Workflow, db: Db, env: Env) returns (k: nat, mid: Db)
    requires Walks(wf, db, env)
    ensures k < |PlanOf(wf, db, env)| ==>
              Reached(wf, db, env, k, mid) && !Passes(mid, LeafAt(wf, db, env, k), TickAt(wf, db, env, k))
    ensures k >= |PlanOf(wf, db, env)| ==>
              && RunLeaves(IndexOf(wf), Claimed(db), PlanOf(wf, db, env), env) == (mid, Proceed)
              && mid.run.status.Running? && Attempt(wf, db, env) == if env.finishLands then mid.(run := mid.run.(status := Completed)) else mid
  {
    var plan := PlanOf(wf, db, env);
    k, mid := WalkStops(IndexOf(wf), Claimed(db), plan, env);
    assert StartedPaths(Claimed(db).logs) == StartedPaths(db.logs);
    if k < |plan| {
      ReachedDecides(wf, db, env, k, mid);
    } else {
      forall l | l in plan ensures !l.step.IsFork() {
        var i :| 0 <= i < |plan| && plan[i] == l;
        LeafOfPlan(wf, db, env, i);
      }
      ProceedsRunning(IndexOf(wf), Claimed(db), plan, env);
    }
  }

  /** What has stopped an attempt is what its status says. */
  lemma StopTells(wf: Workflow, db: Db, env: Env, k: nat, mid: Db)
    requires Walks(wf, db, env) && Reached(wf, db, env, k, mid)
    ensures var leaf, t := LeafAt(wf, db, env, k), TickAt(wf, db, env, k);
            var status := Attempt(wf, db, env).run.status;
            && (Fails(mid, leaf, t) ==> status.Failed?) && (Retries(mid, leaf, t) ==> status.Pending?)
            && (Parks(mid, leaf, t) ==> status.Waiting?)
            && (!Passes(mid, leaf, t) ==>
                  && !status.Completed?
                  && (status.Failed? ==> Fails(mid, leaf, t)) && (status.Pending? ==> Retries(mid, leaf, t))
                  && (status.Waiting? ==> Parks(mid, leaf, t)))
  {
    var leaf, t := LeafAt(wf, db, env, k), TickAt(wf, db, env, k);
    ReachedDecides(wf, db, env, k, mid);
    if leaf.step.Action? { ActionEnds(IndexOf(wf), mid, leaf, t); } else { DelayEnds(IndexOf(wf), mid, leaf, t); }
  }

  lemma SomeTells(wf: Workflow, db: Db, env: Env)
    requires Walks(wf, db, env)
    ensures var status := Attempt(wf, db, env).run.status;
            && (SomeFails(wf, db, env) ==> status.Failed?) && (SomeRetries(wf, db, env) ==> status.Pending?)
            && (SomeParks(wf, db, env) ==> status.Waiting?)
  {
    if k, mid :| Reached(wf, db, env, k, mid) && Fails(mid, LeafAt(wf, db, env, k), TickAt(wf, db, env, k)) {
      StopTells(wf, db, env, k, mid);
    }
    if k, mid :| Reached(wf, db, env, k, mid) && Retries(mid, LeafAt(wf, db, env, k), TickAt(wf, db, env, k)) {
      StopTells(wf, db, env, k, mid);
    }
    if k, mid :| Reached(wf, db, env, k, mid) && Parks(mid, LeafAt(wf, db, env, k), TickAt(wf, db, env, k)) {
      StopTells(wf, db, env, k, mid);
    }
  }

  /** When no leaf stops it, every reached leaf passes. */
  lemma NoStopAllPass(wf: Workflow, db: Db, env: Env, last: Db)
    requires Walks(wf, db, env) && RunLeaves(IndexOf(wf), Claimed(db), PlanOf(wf, db, env), env) == (last, Proceed)
    ensures AllPass(wf, db, env)
  {
    forall k, mid | Reached(wf, db, env, k, mid) ensures Passes(mid, LeafAt(wf, db, env, k), TickAt(wf, db, env, k)) {
      ReachedDecides(wf, db, env, k, mid);
    }
  }

  /**
   How an attempt ends, whatever it meets. It fails the run exactly when an executor it reached gave up (a permanent
   error, or an error at the third retry) or there was nothing to walk; it leaves the run pending exactly when one
   reported a passing error with retries left; waiting exactly when a delay it reached has a deadline ahead and no
   event; completed exactly when every leaf it reached was passed.
   */
  lemma AttemptEnds(wf: Workflow, db: Db, env: Env)
    requires (db.run.status.Pending? || db.run.status.Running?) && env.locks
    ensures var status, walks := Attempt(wf, db, env).run.status, env.loads && wf.steps != [];
            && (status.Failed? <==> if walks then SomeFails(wf, db, env) else env.finishLands)
            && (status.Pending? <==> walks && SomeRetries(wf, db, env))
            && (status.Waiting? <==> walks && SomeParks(wf, db, env))
            && (status.Completed? <==> walks && AllPass(wf, db, env) && env.finishLands)
  {
    if env.loads && wf.steps != [] {
      var k, mid := AttemptStops(wf, db, env);
      var plan := PlanOf(wf, db, env);
      SomeTells(wf, db, env);
      if k < |plan| {
        StopTells(wf, db, env, k, mid);
      } else {
        NoStopAllPass(wf, db, env, mid);
      }
    }
  }

  /** A run that is neither pending nor running, or whose row is not locked, is left alone; one with nothing to walk can only fail. */
  lemma NothingToWalk(wf: Workflow, db: Db, env: Env)
    requires !Walks(wf, db, env)
    ensures Attempt(wf, db, env)
         == if !(db.run.status.Pending? || db.run.status.Running?) || !env.locks then db
            else db.(run := db.run.(status := if env.finishLands then Failed else Running))
  {
    assert db.run.status.Running? ==> db.run == db.run.(status := Running);
  }

  /** A walk starts from the tables as they are, the run marked running. */
  lemma WalkStartsHere(wf: Workflow, db: Db, env: Env)
    requires Walks(wf, db, env) && PlanOf(wf, db, env) != []
    ensures Reached(wf, db, env, 0, db.(run := db.run.(status := Running)))
  {
    assert db.run.status.Running? ==> db.run == db.run.(status := Running);
    assert PlanOf(wf, db, env)[..0] == [];
  }

  /* ---- What each outcome writes ---- */

  /** An executor that gave up: the run fails, its retry count as it was, and the step's row says failed. */
  lemma FailureRecorded(wf: Workflow, db: Db, env: Env, k: nat, mid: Db)
    requires Walks(wf, db, env) && Reached(wf, db, env, k, mid) && Fails(mid, LeafAt(wf, db, env, k), TickAt(wf, db, env, k))
    ensures Attempt(wf, db, env)
         == Db(mid.run.(status := Failed),
               mid.logs + [ActionLog(LeafAt(wf, db, env, k).path, ActionRow, LogFailed, NoOutput, mid.run.retryCount + 1)],
               mid.waits)
  {
    ReachedDecides(wf, db, env, k, mid);
  }

  /** A passing error: one retry used up, the run queued again in 30, 120 or 600 seconds, and the step's row says retrying. */
  lemma RetryRecorded(wf: Workflow, db: Db, env: Env, k: nat, mid: Db)
    requires Walks(wf, db, env) && Reached(wf, db, env, k, mid) && Retries(mid, LeafAt(wf, db, env, k), TickAt(wf, db, env, k))
    ensures var count, now := mid.run.retryCount, TickAt(wf, db, env, k).now;
            Attempt(wf, db, env) ==
            Db(mid.run.(status := Pending, retryCount := count + 1, nextRetryAt := Some(now + [30, 120, 600][count])),
               mid.logs + [ActionLog(LeafAt(wf, db, env, k).path, ActionRow, LogRetrying, NoOutput, count + 1)],
               mid.waits)
  {
    ReachedDecides(wf, db, env, k, mid);
  }

  /** The attempt gets past leaf k, the tables then being `next`. */
  ghost predicate GoesOn(wf: Workflow, db: Db, env: Env, k: nat, next: Db) {
    && k < |PlanOf(wf, db, env)|
    && RunLeaves(IndexOf(wf), Claimed(db), PlanOf(wf, db, env)[..k + 1], env) == (next, Proceed)
  }

  lemma PassedGoesOn(wf: Workflow, db: Db, env: Env, k: nat, mid: Db)
    requires Walks(wf, db, env) && Reached(wf, db, env, k, mid) && Passes(mid, LeafAt(wf, db, env, k), TickAt(wf, db, env, k))
    ensures mid.run.status.Running?
    ensures GoesOn(wf, db, env, k, LeafOp(IndexOf(wf), mid, LeafAt(wf, db, env, k), TickAt(wf, db, env, k)).0)
  {
    var index, plan := IndexOf(wf), PlanOf(wf, db, env);
    ReachedDecides(wf, db, env, k, mid);
    RunLeavesConcat(index, Claimed(db), plan[..k], [plan[k]], env);
    OneLeafRun(index, mid, plan[k], env);
    assert plan[..k] + [plan[k]] == plan[..k + 1];
  }

  /** A step already committed is passed over: no row, no executor call, no change at all. */
  lemma CommittedSkipped(wf: Workflow, db: Db, env: Env, k: nat, mid: Db)
    requires Walks(wf, db, env) && Reached(wf, db, env, k, mid) && IsDone(mid.logs, LeafAt(wf, db, env, k).path)
    ensures GoesOn(wf, db, env, k, mid)
  {
    PassedGoesOn(wf, db, env, k, mid);
  }

  /** An executor that succeeds: its own output in the success row, the retry state cleared, the step in the completed list. */
  lemma SuccessRecorded(wf: Workflow, db: Db, env: Env, k: nat, mid: Db) returns (next: Db)
    requires UniqueIds(wf) && Walks(wf, db, env) && Reached(wf, db, env, k, mid)
    requires Judged(mid, LeafAt(wf, db, env, k), TickAt(wf, db, env, k)) && TickAt(wf, db, env, k).exec.Succeeded?
    ensures GoesOn(wf, db, env, k, next)
    ensures var leaf, output := LeafAt(wf, db, env, k), TickAt(wf, db, env, k).exec.output;
            && next.logs == mid.logs + [ActionLog(leaf.path, ActionRow, LogSuccess, output, mid.run.retryCount + 1)]
            && next.waits == mid.waits
            && next.run == mid.run.(retryCount := 0, nextRetryAt := None, completedActions := next.run.completedActions)
            && IdKey(leaf.step.id) in next.run.completedActions && PathKey(leaf.path) in next.run.completedActions
  {
    var leaf, t := LeafAt(wf, db, env, k), TickAt(wf, db, env, k);
    PassedGoesOn(wf, db, env, k, mid);
    LeafOfPlan(wf, db, env, k);
    LeafKeys(wf, leaf);
    next := LeafOp(IndexOf(wf), mid, leaf, t).0;
    assert next.logs[|mid.logs|].status == LogSuccess && next.logs[|mid.logs|].path == leaf.path;
  }

  /** A delay met for the first time parks the run on its configured deadline; an event wait of a contact is registered. */
  lemma ParkRecorded(wf: Workflow, db: Db, env: Env, k: nat, mid: Db) returns (deadline: Time)
    requires Walks(wf, db, env) && Reached(wf, db, env, k, mid) && Parks(mid, LeafAt(wf, db, env, k), TickAt(wf, db, env, k))
    requires FindWaiting(mid.logs, LeafAt(wf, db, env, k).path) < 0
    ensures var leaf, t := LeafAt(wf, db, env, k), TickAt(wf, db, env, k);
            && LastsAsConfigured(leaf.step, t, deadline)
            && var next := Attempt(wf, db, env);
            && next.run == mid.run.(status := Waiting, wakeAt := Some(deadline), nextRetryAt := None)
            && next.logs == mid.logs + [ActionLog(leaf.path, DelayRow, LogWaiting, WaitOutput(deadline, false, false, None, None),
                                                  mid.run.retryCount + 1)]
            && if t.writes >= 3 && leaf.step.IsWaitEvent() && t.hasContact then
                 leaf.path in next.waits && next.waits[leaf.path].expiresAt == deadline
                 && next.waits - {leaf.path} == mid.waits - {leaf.path}
               else next.waits == mid.waits
  {
    var leaf, t := LeafAt(wf, db, env, k), TickAt(wf, db, env, k);
    ReachedDecides(wf, db, env, k, mid);
    deadline := ResolveDelayWakeAt(leaf.step.delay, t).0;
  }

  /** A parked delay woken early goes back to sleep until the same deadline, its row and the waits untouched. */
  lemma ReparkRecorded(wf: Workflow, db: Db, env: Env, k: nat, mid: Db)
    requires Walks(wf, db, env) && Reached(wf, db, env, k, mid) && Parks(mid, LeafAt(wf, db, env, k), TickAt(wf, db, env, k))
    requires FindWaiting(mid.logs, LeafAt(wf, db, env, k).path) >= 0
    ensures var w := FindWaiting(mid.logs, LeafAt(wf, db, env, k).path);
            Attempt(wf, db, env) ==
            mid.(run := mid.run.(status := Waiting, wakeAt := Some(WakeAtFromLog(mid.logs[w].output)), nextRetryAt := None))
  {
    ReachedDecides(wf, db, env, k, mid);
  }

  /** A delay with nothing to wait for is logged as done at once. */
  lemma PassRecorded(wf: Workflow, db: Db, env: Env, k: nat, mid: Db) returns (next: Db)
    requires Walks(wf, db, env) && Reached(wf, db, env, k, mid) && LeafAt(wf, db, env, k).step.Delay?
    requires !IsDone(mid.logs, LeafAt(wf, db, env, k).path) && FindWaiting(mid.logs, LeafAt(wf, db, env, k).path) < 0
    requires !WaitAhead(LeafAt(wf, db, env, k).step, TickAt(wf, db, env, k)) && TickAt(wf, db, env, k).writes >= 2
    ensures GoesOn(wf, db, env, k, next) && next.waits == mid.waits
    ensures |next.logs| == |mid.logs| + 1 && next.logs[..|mid.logs|] == mid.logs
    ensures var row := next.logs[|mid.logs|];
            && row.path == LeafAt(wf, db, env, k).path && row.kind == DelayRow && row.status == LogSuccess
            && row.output.WaitOutput? && !row.output.resumed && row.output.happened.None?
    ensures next.run == mid.run.(completedActions := next.run.completedActions)
  {
    PassedGoesOn(wf, db, env, k, mid);
    next := LeafOp(IndexOf(wf), mid, LeafAt(wf, db, env, k), TickAt(wf, db, env, k)).0;
  }

  /**
   A wait that may finish turns its own row into a success. A stamped event ends it now with happened = true; otherwise it
   ends at its deadline, an event wait with happened = false. An event wait takes all registrations of the run with it.
   */
  lemma FinishRecorded(wf: Workflow, db: Db, env: Env, k: nat, mid: Db) returns (next: Db)
    requires Walks(wf, db, env) && Reached(wf, db, env, k, mid) && LeafAt(wf, db, env, k).step.Delay?
    requires !IsDone(mid.logs, LeafAt(wf, db, env, k).path) && FindWaiting(mid.logs, LeafAt(wf, db, env, k).path) >= 0
    requires Passes(mid, LeafAt(wf, db, env, k), TickAt(wf, db, env, k))
    ensures GoesOn(wf, db, env, k, next)
    ensures var leaf, now, w := LeafAt(wf, db, env, k), TickAt(wf, db, env, k).now, FindWaiting(mid.logs, LeafAt(wf, db, env, k).path);
            var row, deadline := mid.logs[w], WakeAtFromLog(mid.logs[w].output);
            var event := leaf.step.IsWaitEvent();
            var output := if event && EventSatisfiedFromLog(row.output) then WaitOutput(now, true, false, Some(true), Some(false))
                          else if event then WaitOutput(deadline, true, false, Some(false), Some(true))
                          else WaitOutput(deadline, true, false, None, None);
            && next.logs == mid.logs[w := row.(status := LogSuccess, output := output)]
            && next.waits == (if event then map[] else mid.waits)
            && next.run == mid.run.(retryCount := 0, nextRetryAt := None, wakeAt := None, completedActions := next.run.completedActions)
  {
    PassedGoesOn(wf, db, env, k, mid);
    next := LeafOp(IndexOf(wf), mid, LeafAt(wf, db, env, k), TickAt(wf, db, env, k)).0;
  }

  /* ---- Rows and the executor's verdicts ---- */

  /** The row tells the executor's own verdict on its step. */
  predicate TellsVerdict(row: ActionLog, t: Tick) {
    && (row.kind.ActionRow? && row.status.LogSuccess? ==> t.exec == Succeeded(row.output))
    && (row.status.LogRetrying? ==> t.exec.RetryableError?)
    && (row.status.LogFailed? ==> t.exec.PermanentError? || t.exec.RetryableError?)
  }

  lemma {:induction false} WalkTellsVerdicts(wf: Workflow, db: Db, leaves: seq<Leaf>, env: Env, i: nat)
    requires DbOk(wf, db) && db.run.status.Running? && forall l | l in leaves :: IsLeafOf(wf, l)
    requires |db.logs| <= i < |RunLeaves(IndexOf(wf), db, leaves, env).0.logs|
    ensures var row := RunLeaves(IndexOf(wf), db, leaves, env).0.logs[i]; TellsVerdict(row, env.tick(row.path))
    decreases |leaves|
  {
    var leaf, rest := leaves[0], leaves[1..];
    var (mid, o) := LeafOp(IndexOf(wf), db, leaf, env.tick(leaf.path));
    OpTellsVerdict(wf, db, leaf, env.tick(leaf.path));
    OpKeeps(wf, db, leaf, env.tick(leaf.path));
    if o.Proceed? {
      RunLeavesKeeps(wf, mid, rest, env);
      if i < |mid.logs| {
        assert RowEvolves(mid.logs[i], RunLeaves(IndexOf(wf), mid, rest, env).0.logs[i]);
      } else {
        WalkTellsVerdicts(wf, mid, rest, env, i);
      }
    }
  }

  lemma OpTellsVerdict(wf: Workflow, db: Db, leaf: Leaf, t: Tick)
    requires IsLeafOf(wf, leaf) && LogsOk(wf, db.logs)
    ensures var (next, o) := LeafOp(IndexOf(wf), db, leaf, t);
            && |next.logs| <= |db.logs| + 1
            && (|next.logs| > |db.logs| ==>
                  var row := next.logs[|db.logs|];
                  row.path == leaf.path && TellsVerdict(row, t) && (row.kind.ActionRow? ==> !row.status.LogWaiting?))
  {
    if !leaf.step.Delay? { NoWaitingAction(wf, db.logs, leaf); }
    OpShape(IndexOf(wf), db, leaf, t);
  }

  /**
   Every row an attempt adds tells what the executor of its step said in that very attempt, and a success row has, now and
   after whatever follows, the output the executor returned.
   */
  lemma OutputIsReturned(wf: Workflow, before: seq<Event>, env: Env, later: seq<Event>, i: nat)
    requires |After(wf, before).db.logs| <= i < |After(wf, before + [AttemptRun(env)]).db.logs|
    ensures var row := After(wf, before + [AttemptRun(env)]).db.logs[i];
            && TellsVerdict(row, env.tick(row.path))
            && (row.status.LogSuccess? ==>
                  i < |After(wf, before + [AttemptRun(env)] + later).db.logs|
                  && After(wf, before + [AttemptRun(env)] + later).db.logs[i] == row)
  {
    var first, db := before + [AttemptRun(env)], After(wf, before).db;
    assert first[..|first| - 1] == before;
    AlwaysOk(wf, before);
    PlanWithin(wf.steps, 0, [], Root, StartedPaths(db.logs), ForksOf(wf, env));
    WalkTellsVerdicts(wf, Claimed(db), PlanOf(wf, db, env), env, i);
    if After(wf, first).db.logs[i].status.LogSuccess? { NeverRerun(wf, first, later, i); }
  }
}
