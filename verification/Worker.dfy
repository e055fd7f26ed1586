/**
 The engine's worker (engine.go, engine_wait.go): it rebuilds its resume state from the logs, walks the steps
 tree, and commits each step. Its in-memory caches are proved to be what RunStore reads off the tables.
 */
module Worker {
  import opened Common
  import opened StepTree
  import opened RunStore
  import opened RunLogs
  import opened ResumeState

  class Engine {
    const wf: Workflow
    /** The database rows of one run. */
    var db: Db
    /** The run row as held in memory. */
    var run: RunRow
    /** stepsExecState. */
    var completed: set<Key>
    var started: set<Key>
    var waiting: map<Path, nat>
    /** EvalContext.Actions. */
    var actions: map<Key, Output>

    constructor (wf: Workflow, db: Db)
      ensures this.wf == wf && this.db == db
    {
      this.wf := wf;
      this.db := db;
      run := db.run;
      completed, started, waiting, actions := {}, {}, map[], map[];
    }

    /** The in-memory state says what the tables say. */
    ghost predicate InStep()
      reads this
    {
      run == db.run && Mirrors(wf, db.logs, completed, started, waiting, actions)
    }

    /** What every step of a walk may rely on. */
    ghost predicate Walking()
      reads this
    {
      UniqueIds(wf) && DbOk(wf, db) && db.run.status.Running? && InStep()
    }

    /** Two writes in one transaction: the log row and the run row. */
    method CommitActionAndRun(i: nat, row: ActionLog)
      requires i < |db.logs|
      modifies this`db
      ensures db == Db(run, old(db.logs)[i := row], old(db.waits))
    {
      db := Db(run, db.logs[i := row], db.waits);
    }

    method MarkCompleted(id: StepId, path: Path)
      modifies this`completed, this`started
      ensures completed == old(completed) + (if id != "" then {IdKey(id), PathKey(path)} else {PathKey(path)})
      ensures started == old(started) + (if id != "" then {IdKey(id), PathKey(path)} else {PathKey(path)})
    {
      if id != "" {
        completed := completed + {IdKey(id)};
        started := started + {IdKey(id)};
      }
      completed := completed + {PathKey(path)};
      started := started + {PathKey(path)};
    }

    method SyncRunCompleted()
      modifies this`run
      ensures run == old(run).(completedActions := completed)
    {
      run := run.(completedActions := completed);
    }

    /** What every finished step records in memory: its keys, its output, and the run row's completed list. */
    method Record(leaf: Leaf, output: Output)
      requires leaf.step.id != ""
      modifies this`completed, this`started, this`actions, this`run
      ensures completed == old(completed) + {IdKey(leaf.step.id), PathKey(leaf.path)}
      ensures started == old(started) + {IdKey(leaf.step.id), PathKey(leaf.path)}
      ensures actions == old(actions)[IdKey(leaf.step.id) := output]
      ensures run == old(run).(completedActions := completed)
    {
      actions := actions[IdKey(leaf.step.id) := output];
      MarkCompleted(leaf.step.id, leaf.path);
      SyncRunCompleted();
    }

    /** Record a finished step and commit its row i with the run, whose retry state (and wake time) is cleared. */
    method CommitFinished(leaf: Leaf, i: nat, success: ActionLog, clearWake: bool, ghost all: seq<ActionLog>)
      requires leaf.step.id != "" && i < |db.logs| && all == db.logs[i := success] && success.path == leaf.path
      requires var keys := {IdKey(leaf.step.id), PathKey(leaf.path)};
               Mirrors(wf, all, completed + keys, started + keys, waiting, actions[IdKey(leaf.step.id) := success.output])
      modifies this
      ensures run == old(run).(retryCount := 0, nextRetryAt := None, completedActions := DoneKeys(IndexOf(wf), all),
                               wakeAt := if clearWake then None else old(run).wakeAt)
      ensures db == Db(run, all, old(db).waits) && InStep()
    {
      Record(leaf, success.output);
      run := run.(retryCount := 0, nextRetryAt := None);
      if clearWake {
        run := run.(wakeAt := None);
      }
      CommitActionAndRun(i, success);
    }

    /** The action case of executeStepsWithState. */
    method ExecuteAction(leaf: Leaf, t: Tick) returns (o: Outcome)
      requires UniqueIds(wf) && IsLeafOf(wf, leaf) && leaf.step.Action? && InStep()
      requires HasKey(completed, leaf) <==> IsDone(db.logs, leaf.path)
      modifies this
      ensures (db, o) == ActionOp(IndexOf(wf), old(db), leaf, t)
      ensures o.Proceed? ==> InStep()
      ensures IsDone(old(db).logs, leaf.path) ==> o.Proceed? && db == old(db)
      ensures !IsDone(old(db).logs, leaf.path) && t.writes == 0 ==> o.Crashed? && db == old(db)
      ensures !IsDone(old(db).logs, leaf.path) && t.writes > 0 ==>
        && db.waits == old(db).waits && |db.logs| == |old(db).logs| + 1 && db.logs[..|old(db).logs|] == old(db).logs
        && var row := ActionLog(leaf.path, ActionRow, LogRunning, NoOutput, old(db).run.retryCount + 1);
           var last, count := db.logs[|old(db).logs|], old(db).run.retryCount;
           if t.writes == 1 then o.Crashed? && db.run == old(db).run && last == row
           else match t.exec
                case Succeeded(output) =>
                  && o.Proceed? && last == row.(status := LogSuccess, output := output)
                  && db.run.status == old(db).run.status && db.run.retryCount == 0 && db.run.nextRetryAt.None?
                case PermanentError =>
                  o.Errored? && last == row.(status := LogFailed) && db.run == old(db).run.(status := Failed)
                case RetryableError =>
                  if count >= 3 then o.Errored? && last == row.(status := LogFailed) && db.run == old(db).run.(status := Failed)
                  else && o.Errored? && last == row.(status := LogRetrying)
                       && db.run == old(db).run.(status := Pending, retryCount := count + 1,
                                                 nextRetryAt := Some(t.now + [30, 120, 600][count]))
    {
      if IdKey(leaf.step.id) in completed || PathKey(leaf.path) in completed { return Proceed; }
      if t.writes == 0 { return Crashed; }
      ghost var logs := db.logs;
      var row := ActionLog(leaf.path, ActionRow, LogRunning, NoOutput, run.retryCount + 1);
      db := db.(logs := db.logs + [row]);
      if t.writes == 1 { return Crashed; }
      if t.exec.Succeeded? {
        CommitSuccess(leaf, row, t.exec.output, logs);
        o := Proceed;
      } else {
        CommitFailure(row, t, t.exec.RetryableError?, logs);
        o := Errored;
      }
    }

    /** The executor succeeded: record the output, mark the step and commit its row with the run. */
    method CommitSuccess(leaf: Leaf, row: ActionLog, output: Output, ghost logs: seq<ActionLog>)
      requires UniqueIds(wf) && IsLeafOf(wf, leaf) && run == db.run
      requires row.path == leaf.path && !IsDone(logs, leaf.path) && db.logs == logs + [row]
      requires Mirrors(wf, logs, completed, started, waiting, actions)
      modifies this
      ensures var all := logs + [row.(status := LogSuccess, output := output)];
              db == Db(old(run).(retryCount := 0, nextRetryAt := None, completedActions := DoneKeys(IndexOf(wf), all)), all, old(db).waits)
      ensures InStep()
    {
      var n := |db.logs| - 1;
      var success := row.(status := LogSuccess, output := output);
      assert db.logs[n := success] == logs + [success];
      MirrorsAppendSuccess(wf, logs, success, leaf, completed, started, waiting, actions);
      CommitFinished(leaf, n, success, false, logs + [success]);
    }

    /** The executor failed: schedule a retry while the budget lasts, else fail the run. */
    method CommitFailure(row: ActionLog, t: Tick, retryable: bool, ghost logs: seq<ActionLog>)
      requires run == db.run && db.logs == logs + [row]
      modifies this`db, this`run
      ensures run == db.run && db.waits == old(db).waits
      ensures if retryable && old(run).retryCount < MAX_RETRIES then
                && db.logs == logs + [row.(status := LogRetrying)]
                && run == old(run).(status := Pending, retryCount := old(run).retryCount + 1,
                                    nextRetryAt := Some(t.now + [30, 120, 600][old(run).retryCount]))
              else
                && db.logs == logs + [row.(status := LogFailed)]
                && run == old(run).(status := Failed)
    {
      var n := |db.logs| - 1;
      if run.retryCount < MAX_RETRIES && retryable {
        run := run.(retryCount := run.retryCount + 1);
        run := run.(nextRetryAt := Some(t.now + Backoff(run.retryCount)), status := Pending);
        CommitActionAndRun(n, row.(status := LogRetrying));
      } else {
        run := run.(status := Failed);
        CommitActionAndRun(n, row.(status := LogFailed));
      }
    }

    /** finishWaitStep: the parked row w turns into a success and the walk carries on. */
    method FinishWaitStep(leaf: Leaf, w: nat, t: Tick, happened: bool) returns (o: Outcome)
      requires UniqueIds(wf) && IsLeafOf(wf, leaf) && leaf.step.Delay? && FinalRowIsLast(db.logs) && InStep()
      requires !IsDone(db.logs, leaf.path) && w < |db.logs| && db.logs[w].status.LogWaiting? && db.logs[w].path == leaf.path
      modifies this
      ensures (db, o) == FinishWait(IndexOf(wf), old(db), leaf, w, t, happened)
      ensures o.Proceed? ==> InStep()
    {
      if t.writes == 0 { return Crashed; }
      var output := FinishedWait(leaf.step, WakeAtFromLog(db.logs[w].output), t.now, happened);
      var success := db.logs[w].(status := LogSuccess, output := output);
      MirrorsFlip(wf, db.logs, w, success, leaf, completed, started, waiting, actions);
      CommitFinished(leaf, w, success, true, db.logs[w := success]);
      if leaf.step.IsWaitEvent() {
        if t.writes == 1 { return Crashed; }
        db := db.(waits := map[]);
      }
      return Proceed;
    }

    /** The resume path of handleDelayStep. */
    method ResumeDelay(leaf: Leaf, w: nat, t: Tick) returns (o: Outcome)
      requires UniqueIds(wf) && IsLeafOf(wf, leaf) && leaf.step.Delay? && FinalRowIsLast(db.logs) && InStep()
      requires !IsDone(db.logs, leaf.path) && w < |db.logs| && db.logs[w].status.LogWaiting? && db.logs[w].path == leaf.path
      modifies this
      ensures (db, o) == ResumeWait(IndexOf(wf), old(db), leaf, w, t)
      ensures o.Proceed? ==> InStep()
    {
      var wakeAt := WakeAtFromLog(db.logs[w].output);
      if leaf.step.IsWaitEvent() && EventSatisfiedFromLog(db.logs[w].output) {
        o := FinishWaitStep(leaf, w, t, true);
      } else if wakeAt > t.now {
        if t.writes == 0 { return Crashed; }
        run := run.(status := Waiting, wakeAt := Some(wakeAt), nextRetryAt := None);
        db := db.(run := run);
        o := Parked;
      } else {
        o := FinishWaitStep(leaf, w, t, false);
      }
    }

    /** The first-encounter path of handleDelayStep. */
    method EnterDelay(leaf: Leaf, t: Tick) returns (o: Outcome)
      requires UniqueIds(wf) && IsLeafOf(wf, leaf) && leaf.step.Delay? && InStep()
      requires !IsDone(db.logs, leaf.path)
      modifies this
      ensures (db, o) == EnterWait(IndexOf(wf), old(db), leaf, t)
      ensures o.Proceed? ==> InStep()
    {
      var (wakeAt, resolved) := ResolveDelayWakeAt(leaf.step.delay, t);
      var row := ActionLog(leaf.path, DelayRow, LogRunning, NoOutput, run.retryCount + 1);
      if t.writes == 0 { return Crashed; }
      if !(resolved && wakeAt > t.now) {
        o := PassDelay(leaf, row.(status := LogSuccess, output := FreshWait(wakeAt)), t);
      } else {
        o := ParkOnDelay(leaf, row, wakeAt, t);
      }
    }

    /** The wait is already over: log it as done, then mirror that into the run row. */
    method PassDelay(leaf: Leaf, success: ActionLog, t: Tick) returns (o: Outcome)
      requires UniqueIds(wf) && IsLeafOf(wf, leaf) && InStep()
      requires success.status.LogSuccess? && success.path == leaf.path && !IsDone(db.logs, leaf.path)
      modifies this
      ensures db.logs == old(db).logs + [success] && db.waits == old(db).waits
      ensures if t.writes == 1 then o.Crashed? && db.run == old(db).run
              else o.Proceed? && InStep() && db.run == old(db).run.(completedActions := DoneKeys(IndexOf(wf), db.logs))
    {
      MirrorsAppendSuccess(wf, db.logs, success, leaf, completed, started, waiting, actions);
      Record(leaf, success.output);
      db := db.(logs := db.logs + [success]);
      if t.writes == 1 { return Crashed; }
      db := db.(run := run);
      return Proceed;
    }

    /** Park the run: a running row first, then the waiting row together with the run, then the event registration. */
    method ParkOnDelay(leaf: Leaf, row: ActionLog, wakeAt: Time, t: Tick) returns (o: Outcome)
      requires run == db.run && t.writes > 0
      modifies this
      ensures var parked := row.(status := LogWaiting, output := FreshWait(wakeAt));
              var after := old(db).(run := old(run).(status := Waiting, wakeAt := Some(wakeAt), nextRetryAt := None),
                                    logs := old(db).logs + [parked]);
              (db, o) == if t.writes == 1 then (old(db).(logs := old(db).logs + [row]), Crashed)
                         else if t.writes == 2 then (after, Crashed)
                         else if leaf.step.IsWaitEvent() && t.hasContact then (Register(after, leaf.path, wakeAt), Parked)
                         else (after, Parked)
    {
      ghost var logs := db.logs;
      var n := |db.logs|;
      db := db.(logs := db.logs + [row]);
      if t.writes == 1 { return Crashed; }
      var parked := row.(status := LogWaiting, output := FreshWait(wakeAt));
      run := run.(status := Waiting, wakeAt := Some(wakeAt), nextRetryAt := None);
      CommitActionAndRun(n, parked);
      assert db.logs == logs + [parked];
      if t.writes == 2 { return Crashed; }
      waiting := waiting[leaf.path := n];
      started := started + {PathKey(leaf.path)};
      if leaf.step.id != "" {
        started := started + {IdKey(leaf.step.id)};
      }
      if leaf.step.IsWaitEvent() && t.hasContact {
        db := Register(db, leaf.path, wakeAt);
      }
      return Parked;
    }

    /** The delay case of executeStepsWithState, with handleDelayStep. */
    method ExecuteDelay(leaf: Leaf, t: Tick) returns (o: Outcome)
      requires UniqueIds(wf) && IsLeafOf(wf, leaf) && leaf.step.Delay? && FinalRowIsLast(db.logs) && InStep()
      requires HasKey(completed, leaf) <==> IsDone(db.logs, leaf.path)
      modifies this
      ensures (db, o) == DelayOp(IndexOf(wf), old(db), leaf, t)
      ensures o.Proceed? ==> InStep()
    {
      if IdKey(leaf.step.id) in completed || PathKey(leaf.path) in completed { return Proceed; }
      assert FindWaiting(db.logs, leaf.path) >= 0 <==> leaf.path in waiting;
      if leaf.path in waiting {
        o := ResumeDelay(leaf, waiting[leaf.path], t);
      } else {
        o := EnterDelay(leaf, t);
      }
    }

    /** One leaf step of the walk. */
    method ExecuteLeaf(leaf: Leaf, t: Tick) returns (o: Outcome)
      requires Walking() && IsLeafOf(wf, leaf)
      modifies this
      ensures (db, o) == LeafOp(IndexOf(wf), old(db), leaf, t)
      ensures o.Proceed? ==> Walking()
    {
      AllAreLeaves(wf.steps, 0, [], Root);
      KeysTellDone(wf, db.logs, leaf);
      OpKeeps(wf, db, leaf, t);
      if leaf.step.Delay? {
        o := ExecuteDelay(leaf, t);
      } else {
        o := ExecuteAction(leaf, t);
      }
    }

    /** A condition or split: keep the branch that has started, else decide. */
    method ChooseBranch(step: Step, path: Path, forks: Forks) returns (yes: bool)
      requires Walking() && step.IsFork()
      requires forall l | l in StepLeaves(step, path) :: IsLeafOf(wf, l)
      ensures yes <==> TakesYes(step, path, StartedPaths(db.logs), forks)
      ensures Touched(AllLeaves(step.yesSteps, 0, path, Yes), StartedPaths(db.logs)) ==> yes
      ensures !Touched(AllLeaves(step.yesSteps, 0, path, Yes), StartedPaths(db.logs)) ==>
        if Touched(AllLeaves(step.noSteps, 0, path, No), StartedPaths(db.logs)) then !yes
        else if step.Split? then yes <==> forks.roll(step.id) < (if step.percentA.Some? then step.percentA.value else 50)
        else yes <==> step.condition.Some? && forks.condition(path, step.condition.value)
    {
      forall l | l in StepLeaves(step, path) ensures HasKey(started, l) <==> l.path in StartedPaths(db.logs) {
        KeysTellDone(wf, db.logs, l);
      }
      StartedMeansTouched(step.yesSteps, 0, started, path, Yes, StartedPaths(db.logs));
      StartedMeansTouched(step.noSteps, 0, started, path, No, StartedPaths(db.logs));
      if HasAnyStepStarted(step.yesSteps, 0, started, path, Yes) {
        yes := true;
      } else if HasAnyStepStarted(step.noSteps, 0, started, path, No) {
        yes := false;
      } else {
        yes := FreshChoice(step, path, forks);
      }
    }

    /**
     executeStepsWithState. Although each fork consults the started set as it then is, the whole walk is the one
     planned from what had started when it began.
     */
    method ExecuteSteps(steps: seq<Step>, parent: Path, branch: Branch, env: Env) returns (o: Outcome)
      requires Walking()
      requires forall l | l in AllLeaves(steps, 0, parent, branch) :: IsLeafOf(wf, l)
      modifies this
      ensures (db, o) == RunLeaves(IndexOf(wf), old(db), Plan(steps, 0, parent, branch, StartedPaths(old(db).logs), ForksOf(wf, env)), env)
      ensures o.Proceed? ==> Walking()
      decreases steps, 1
    {
      ghost var index, forks, begun := IndexOf(wf), ForksOf(wf, env), StartedPaths(db.logs);
      ghost var goal := RunLeaves(index, db, Plan(steps, 0, parent, branch, begun, forks), env);
      for i := 0 to |steps|
        invariant Walking()
        invariant forall l | l in AllLeaves(steps, i, parent, branch) :: IsLeafOf(wf, l)
        invariant Agree(AllLeaves(steps, i, parent, branch), StartedPaths(db.logs), begun)
        invariant goal == RunLeaves(index, db, Plan(steps, i, parent, branch, begun, forks), env)
      {
        var path := BuildStepPath(parent, branch, i);
        ghost var before := db;
        StepAhead(steps, i, parent, branch, StartedPaths(before.logs), begun, forks);
        o := ExecuteStep(steps[i], path, env);
        StepBehind(wf, steps, i, parent, branch, before, db, o, begun, env);
        if !o.Proceed? { return; }
      }
      o := Proceed;
    }

    /** One turn of the loop: a fork recurses into the branch it takes, a leaf executes. */
    method ExecuteStep(step: Step, path: Path, env: Env) returns (o: Outcome)
      requires Walking()
      requires forall l | l in StepLeaves(step, path) :: IsLeafOf(wf, l)
      modifies this
      ensures (db, o) == RunLeaves(IndexOf(wf), old(db), StepPlan(step, path, StartedPaths(old(db).logs), ForksOf(wf, env)), env)
      ensures o.Proceed? ==> Walking()
      decreases step, 0
    {
      if step.IsFork() {
        var yes := ChooseBranch(step, path, ForksOf(wf, env));
        if yes {
          o := ExecuteSteps(step.yesSteps, path, Yes, env);
        } else {
          o := ExecuteSteps(step.noSteps, path, No, env);
        }
      } else {
        assert Leaf(path, step) in StepLeaves(step, path);
        OneLeafRun(IndexOf(wf), db, Leaf(path, step), env);
        o := ExecuteLeaf(Leaf(path, step), env.tick(path));
      }
    }

    /** One turn of the rebuild: a success row marks its step and keeps its output, a waiting row its step as started. */
    method ReadRow(i: nat, id: StepId)
      requires i < |db.logs|
      modifies this`completed, this`started, this`waiting, this`actions
      ensures var row := db.logs[i];
              var keys := if id != "" then {IdKey(id), PathKey(row.path)} else {PathKey(row.path)};
              && completed == old(completed) + (if row.status.LogSuccess? then keys else {})
              && started == old(started) + (if row.status.LogSuccess? || row.status.LogWaiting? then keys else {})
              && waiting == (if row.status.LogWaiting? then old(waiting)[row.path := i] else old(waiting))
              && actions == if !row.status.LogSuccess? || row.output.NoOutput? then old(actions)
                            else if id != "" then old(actions)[PathKey(row.path) := row.output][IdKey(id) := row.output]
                            else old(actions)[PathKey(row.path) := row.output]
    {
      var row := db.logs[i];
      if row.status.LogSuccess? {
        MarkCompleted(id, row.path);
        if !row.output.NoOutput? {
          actions := actions[PathKey(row.path) := row.output];
          if id != "" {
            actions := actions[IdKey(id) := row.output];
          }
        }
      } else if row.status.LogWaiting? {
        waiting := waiting[row.path := i];
        started := started + {PathKey(row.path)};
        if id != "" {
          started := started + {IdKey(id)};
        }
      }
    }

    /** Rebuild the resume state from the action logs, as processRun does at the start of every attempt. */
    method Rebuild()
      requires UniqueIds(wf) && LogsOk(wf, db.logs)
      modifies this`completed, this`started, this`waiting, this`actions
      ensures Mirrors(wf, db.logs, completed, started, waiting, actions)
    {
      completed, started, waiting, actions := {}, {}, map[], map[];
      var index := IndexOf(wf);
      var i := 0;
      NothingRead(wf);
      assert db.logs[..0] == [];
      while i < |db.logs|
        invariant 0 <= i <= |db.logs|
        invariant Mirrors(wf, db.logs[..i], completed, started, waiting, actions)
      {
        var row := db.logs[i];
        assert db.logs[..i + 1] == db.logs[..i] + [row];
        ghost var leaf := RowLeaf(wf, row);
        RebuildRow(wf, db.logs, i, leaf, completed, started, waiting, actions);
        ReadRow(i, if row.path in index then index[row.path] else "");
        i := i + 1;
      }
      assert db.logs[..|db.logs|] == db.logs;
    }

    /** processRun. */
    method ProcessRun(env: Env)
      requires UniqueIds(wf) && DbOk(wf, db)
      modifies this
      ensures db == Attempt(wf, old(db), env)
    {
      if !(db.run.status.Pending? || db.run.status.Running?) || !env.locks { return; }
      run := db.run;
      if run.status.Pending? {
        run := run.(status := Running);
        db := db.(run := run);
      }
      if !env.loads || wf.steps == [] {
        if env.finishLands {
          run := run.(status := Failed);
          db := db.(run := run);
        }
        return;
      }
      Rebuild();
      var o := ExecuteSteps(wf.steps, [], Root, env);
      if o.Proceed? && env.finishLands {
        run := run.(status := Completed);
        db := db.(run := run);
      }
    }

    /** RequeueInFlight, for this run. */
    method RequeueInFlight()
      modifies this`db
      ensures db == Recover(old(db)) && db.logs == old(db).logs && db.waits == old(db).waits
      ensures db.run == if old(db).run.status.Running?
                        then old(db).run.(status := Pending, recoveryCount := old(db).run.recoveryCount + 1) else old(db).run
    {
      if db.run.status.Running? {
        db := db.(run := db.run.(status := Pending, recoveryCount := db.run.recoveryCount + 1));
      }
    }

    /** resumeEventWaits for this run: each claimed wait in turn tries to wake the parked run. */
    method ResumeEventWaits(claimed: seq<Path>, now: Time)
      modifies this`db
      ensures db == SatisfyAll(old(db), claimed, now)
      ensures claimed == [] || !old(db).run.status.Waiting? ==> db == old(db)
      ensures claimed != [] && old(db).run.status.Waiting? ==>
        && db.run == old(db).run.(status := Pending, nextRetryAt := Some(now), wakeAt := None)
        && db.waits == old(db).waits && |db.logs| == |old(db).logs|
        && forall i :: 0 <= i < |db.logs| ==>
             var row := old(db).logs[i];
             db.logs[i] == if row.status.LogWaiting? && row.path == claimed[0] && row.output.WaitOutput?
                           then row.(output := row.output.(eventSatisfied := true)) else row
    {
      if claimed != [] { OneEventWakes(db, claimed, now); }
      for i := 0 to |claimed|
        invariant SatisfyAll(old(db), claimed, now) == SatisfyAll(db, claimed[i..], now)
      {
        if db.run.status.Waiting? {
          var logs := StampRows(db.logs, claimed[i]);
          db := db.(run := db.run.(status := Pending, nextRetryAt := Some(now), wakeAt := None), logs := logs);
        }
        assert claimed[i..][1..] == claimed[i + 1..];
      }
    }

    /** RetryRun with ResetRunForRetry. */
    method RetryRun() returns (reset: bool)
      modifies this`db
      ensures db == ResetForRetry(old(db)) && (reset <==> old(db).run.status.Failed?)
      ensures db == if reset then old(db).(run := old(db).run.(status := Pending, retryCount := 0, nextRetryAt := None)) else old(db)
    {
      reset := db.run.status.Failed?;
      if reset {
        db := db.(run := db.run.(status := Pending, retryCount := 0, nextRetryAt := None));
      }
    }
  }

  function SatisfyAll(db: Db, paths: seq<Path>, now: Time): Db
    decreases |paths|
  {
    if paths == [] then db else SatisfyAll(Satisfy(db, paths[0], now), paths[1..], now)
  }

  /** Only the first of several claimed waits can wake the run: after it the run is no longer parked. */
  lemma {:induction false} OneEventWakes(db: Db, paths: seq<Path>, now: Time)
    requires paths != []
    ensures SatisfyAll(db, paths, now) == Satisfy(db, paths[0], now)
    decreases |paths|
  {
    if |paths| > 1 {
      var next := Satisfy(db, paths[0], now);
      OneEventWakes(next, paths[1..], now);
    }
  }

  /**
   Of a batch of claimed waits, the parked step's own event is honoured exactly when it comes first in the batch (or was
   stamped before): any other wait of the run, left over or not, wakes the run without stamping the parked row.
   */
  lemma BatchHonoursExactly(wf: Workflow, db: Db, paths: seq<Path>, now: Time, i: nat)
    requires LogsOk(wf, db.logs) && db.run.status.Waiting? && i < |db.logs| && db.logs[i].status.LogWaiting?
    requires paths != []
    ensures var next := SatisfyAll(db, paths, now);
            && next.run.status.Pending? && |next.logs| == |db.logs|
            && (EventSatisfiedFromLog(next.logs[i].output)
                <==> paths[0] == db.logs[i].path || EventSatisfiedFromLog(db.logs[i].output))
  {
    assert RowOk(wf, db.logs[i]);
    OneEventWakes(db, paths, now);
  }

  /** Before step i: its own part of the plan is the same whether read now or when the walk began. */
  lemma StepAhead(steps: seq<Step>, i: nat, parent: Path, branch: Branch, now: set<Path>, begun: set<Path>, forks: Forks)
    requires i < |steps|
    requires Agree(AllLeaves(steps, i, parent, branch), now, begun)
    ensures var path := BuildStepPath(parent, branch, i);
            && (forall l | l in StepLeaves(steps[i], path) :: l in AllLeaves(steps, i, parent, branch))
            && StepPlan(steps[i], path, begun, forks) == StepPlan(steps[i], path, now, forks)
  {
    StepPlanLocal(steps[i], BuildStepPath(parent, branch, i), begun, now, forks);
  }

  /** After step i: the walk either stopped there, or goes on with the rest, whose forks see nothing new. */
  lemma StepBehind(wf: Workflow, steps: seq<Step>, i: nat, parent: Path, branch: Branch,
                   before: Db, after: Db, o: Outcome, begun: set<Path>, env: Env)
    requires i < |steps| && DbOk(wf, before) && before.run.status.Running?
    requires forall l | l in AllLeaves(steps, i, parent, branch) :: IsLeafOf(wf, l)
    requires Agree(AllLeaves(steps, i, parent, branch), StartedPaths(before.logs), begun)
    requires (after, o)
          == RunLeaves(IndexOf(wf), before, StepPlan(steps[i], BuildStepPath(parent, branch, i), begun, ForksOf(wf, env)), env)
    ensures RunLeaves(IndexOf(wf), before, Plan(steps, i, parent, branch, begun, ForksOf(wf, env)), env)
         == if o.Proceed? then RunLeaves(IndexOf(wf), after, Plan(steps, i + 1, parent, branch, begun, ForksOf(wf, env)), env) else (after, o)
    ensures Agree(AllLeaves(steps, i + 1, parent, branch), StartedPaths(after.logs), begun)
    ensures forall l | l in AllLeaves(steps, i + 1, parent, branch) :: IsLeafOf(wf, l)
  {
    var path, forks := BuildStepPath(parent, branch, i), ForksOf(wf, env);
    var mine := StepPlan(steps[i], path, begun, forks);
    RunLeavesConcat(IndexOf(wf), before, mine, Plan(steps, i + 1, parent, branch, begun, forks), env);
    StepPlanWithin(steps[i], path, begun, forks);
    RunLeavesKeeps(wf, before, mine, env);
    EvolvesKeepsDone(IndexOf(wf), before.logs, after.logs);
    SiblingsApart(steps, i, parent, branch);
    forall l | l in AllLeaves(steps, i + 1, parent, branch) ensures l.path in StartedPaths(after.logs) <==> l.path in begun {
      assert l in AllLeaves(steps, i, parent, branch);
      assert forall j :: 0 <= j < |mine| ==> mine[j] in StepLeaves(steps[i], path);
    }
  }

  /** The leaf a row belongs to. */
  ghost function RowLeaf(wf: Workflow, row: ActionLog): (leaf: Leaf)
    requires RowOk(wf, row)
    ensures IsLeafOf(wf, leaf) && leaf.path == row.path
  {
    var leaf :| leaf in Leaves(wf.steps) && leaf.path == row.path && (row.kind.DelayRow? <==> leaf.step.Delay?);
    leaf
  }

  lemma NothingRead(wf: Workflow)
    ensures Mirrors(wf, [], {}, {}, map[], map[])
  {
  }

  /** Reading row i keeps the rebuilt state in step with the rows read. */
  lemma RebuildRow(wf: Workflow, logs: seq<ActionLog>, i: nat, leaf: Leaf,
                   completed: set<Key>, started: set<Key>, waiting: map<Path, nat>, actions: map<Key, Output>)
    requires UniqueIds(wf) && LogsOk(wf, logs) && i < |logs| && IsLeafOf(wf, leaf) && leaf.path == logs[i].path
    requires Mirrors(wf, logs[..i], completed, started, waiting, actions)
    ensures var row, all, keys := logs[i], logs[..i] + [logs[i]], {IdKey(leaf.step.id), PathKey(leaf.path)};
            && row.path in IndexOf(wf) && IndexOf(wf)[row.path] == leaf.step.id && leaf.step.id != ""
            && match row.status
               case LogSuccess =>
                 var read := if row.output.NoOutput? then actions
                             else actions[PathKey(row.path) := row.output][IdKey(leaf.step.id) := row.output];
                 Mirrors(wf, all, completed + keys, started + keys, waiting, read)
               case LogWaiting => Mirrors(wf, all, completed, started + keys, waiting[row.path := i], actions)
               case _ => Mirrors(wf, all, completed, started, waiting, actions)
  {
    IndexFindsLeaf(wf.steps, 0, [], Root, leaf);
    match logs[i].status
    case LogSuccess =>
      assert !IsDone(logs[..i], leaf.path);
      RebuildSuccess(wf, logs[..i], logs[i], leaf, completed, started, waiting, actions);
    case LogWaiting => RebuildWaiting(wf, logs[..i], logs[i], leaf, completed, started, waiting, actions);
    case _ => RebuildOther(wf, logs[..i], logs[i], completed, started, waiting, actions);
  }
}
