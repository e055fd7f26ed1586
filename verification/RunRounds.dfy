/** Liveness: rounds in which a run is woken once it is due and then attempted without a crash bring it to its end. */
module RunRounds {
  import opened Common
  import opened Conditions
  import opened StepTree
  import opened RunStore
  import opened RunLogs
  import opened RunRoutes
  import opened RunSafety
  import opened RunResume
  import opened RunRetry

  /* ---- One attempt that is neither cut short nor premature ---- */

  /** Every write of the attempt lands. */
  ghost predicate Lands(env: Env) {
    env.locks && env.loads && env.finishLands && forall p :: env.tick(p).writes >= 3
  }

  /** Every parked step is due by the attempt's clock, or its event was stamped. */
  ghost predicate Ready(wf: Workflow, logs: seq<ActionLog>, env: Env) {
    forall i | 0 <= i < |logs| && logs[i].status.LogWaiting? ::
      || env.tick(logs[i].path).now >= WakeAtFromLog(logs[i].output)
      || (EventSatisfiedFromLog(logs[i].output) && IsEventWaitPath(wf, logs[i].path))
  }

  lemma OpReady(wf: Workflow, db: Db, leaf: Leaf, env: Env)
    requires IsLeafOf(wf, leaf) && LogsOk(wf, db.logs) && Ready(wf, db.logs, env) && env.tick(leaf.path).writes >= 3
    ensures var (next, o) := LeafOp(IndexOf(wf), db, leaf, env.tick(leaf.path));
            && !o.Crashed?
            && (o.Parked? ==> |next.logs| > |db.logs|)
            && (o.Proceed? ==> Ready(wf, next.logs, env))
  {
    var t := env.tick(leaf.path);
    var (next, o) := LeafOp(IndexOf(wf), db, leaf, t);
    if !leaf.step.Delay? { NoWaitingAction(wf, db.logs, leaf); }
    OpShape(IndexOf(wf), db, leaf, t);
    var w := FindWaiting(db.logs, leaf.path);
    if w >= 0 && IsEventWaitPath(wf, leaf.path) {
      var l :| l in Leaves(wf.steps) && l.path == leaf.path && l.step.IsWaitEvent();
      SamePathSameLeaf(wf, l, leaf);
    }
  }

  lemma {:induction false} WalkReady(wf: Workflow, db: Db, leaves: seq<Leaf>, env: Env)
    requires DbOk(wf, db) && db.run.status.Running? && Ready(wf, db.logs, env) && Lands(env)
    requires forall l | l in leaves :: IsLeafOf(wf, l)
    ensures var (next, o) := RunLeaves(IndexOf(wf), db, leaves, env);
            !o.Crashed? && (o.Parked? ==> |next.logs| > |db.logs|)
    decreases |leaves|
  {
    if leaves != [] {
      var (mid, o) := LeafOp(IndexOf(wf), db, leaves[0], env.tick(leaves[0].path));
      OpReady(wf, db, leaves[0], env);
      OpKeeps(wf, db, leaves[0], env.tick(leaves[0].path));
      if o.Proceed? {
        WalkReady(wf, mid, leaves[1..], env);
      }
    }
  }

  /** Such an attempt is effective: it ends the run or leaves strictly less to do. */
  lemma ReadyIsEffective(wf: Workflow, db: Db, env: Env)
    requires DbOk(wf, db) && (db.run.status.Pending? || db.run.status.Running?) && Ready(wf, db.logs, env) && Lands(env)
    ensures Effective(wf, db, env)
    ensures !WalkCrashes(wf, db, env)
  {
    if wf.steps != [] {
      var started := StartedPaths(db.logs);
      PlanWithin(wf.steps, 0, [], Root, started, ForksOf(wf, env));
      WalkReady(wf, Claimed(db), RootPlan(wf.steps, started, ForksOf(wf, env)), env);
    }
  }

  /* ---- Rounds ---- */

  /** Anything but manual retries, then recovery, a clock sweep and an attempt. */
  datatype Round = Round(meanwhile: seq<Event>, now: Time, env: Env)

  function RoundEvents(r: Round): seq<Event> {
    r.meanwhile + [RecoverRun, SweepWake(r.now), AttemptRun(r.env)]
  }

  function AllEvents(rounds: seq<Round>): seq<Event> {
    if rounds == [] then [] else AllEvents(rounds[..|rounds| - 1]) + RoundEvents(rounds[|rounds| - 1])
  }

  /** The sweep comes once the parked step is due (or the run is awake already), the attempt once it is due or stamped. */
  ghost predicate GoodRound(wf: Workflow, before: seq<Event>, r: Round) {
    && NoManualRetry(r.meanwhile) && Lands(r.env)
    && var db := After(wf, before + r.meanwhile).db;
    && Ready(wf, db.logs, r.env)
    && (db.run.status.Waiting? ==> db.run.wakeAt.Some? && db.run.wakeAt.value <= r.now)
  }

  ghost predicate GoodRounds(wf: Workflow, before: seq<Event>, rounds: seq<Round>) {
    forall i :: 0 <= i < |rounds| ==> GoodRound(wf, before + AllEvents(rounds[..i]), rounds[i])
  }

  /** Everything but a manual retry leaves no more to do, and a run that is over stays over. */
  lemma StepShrinks(wf: Workflow, w: World, e: Event)
    requires DbOk(wf, w.db) && !e.ManualRetry?
    ensures var next := Step1(wf, w, e).db;
            Remaining(wf, next) <= Remaining(wf, w.db) && (Over(w.db) ==> Over(next))
  {
    match e
    case AttemptRun(env) =>
      AttemptShrinks(wf, w.db, env);
    case SatisfyRun(path, _) =>
      EventKeeps(wf, w, e);
      StampKeepsDone(w.db.logs, path);
    case _ =>
  }

  lemma OneEventMore(wf: Workflow, before: seq<Event>, later: seq<Event>)
    requires later != []
    ensures After(wf, before + later) == Step1(wf, After(wf, before + later[..|later| - 1]), later[|later| - 1])
  {
    assert (before + later)[..|before + later| - 1] == before + later[..|later| - 1];
  }

  lemma {:induction false} MeanwhileShrinks(wf: Workflow, before: seq<Event>, meanwhile: seq<Event>)
    requires NoManualRetry(meanwhile)
    ensures var db, next := After(wf, before).db, After(wf, before + meanwhile).db;
            Remaining(wf, next) <= Remaining(wf, db) && (Over(db) ==> Over(next))
    decreases |meanwhile|
  {
    if meanwhile == [] {
      assert before + meanwhile == before;
    } else {
      var rest, e := meanwhile[..|meanwhile| - 1], meanwhile[|meanwhile| - 1];
      OneEventMore(wf, before, meanwhile);
      MeanwhileShrinks(wf, before, rest);
      AlwaysOk(wf, before + rest);
      StepShrinks(wf, After(wf, before + rest), e);
    }
  }

  /** The state in which a round's attempt starts. */
  function Awake(db: Db, now: Time): Db { WakeDue(Recover(db), now) }

  lemma AfterRound(wf: Workflow, before: seq<Event>, r: Round)
    ensures After(wf, before + RoundEvents(r)).db == Attempt(wf, Awake(After(wf, before + r.meanwhile).db, r.now), r.env)
  {
    var zero := before + r.meanwhile;
    var one, two, three := zero + [RecoverRun], zero + [RecoverRun, SweepWake(r.now)], before + RoundEvents(r);
    assert three[..|three| - 1] == two && two[..|two| - 1] == one && one[..|one| - 1] == zero;
    assert After(wf, one) == Step1(wf, After(wf, zero), RecoverRun);
    assert After(wf, two) == Step1(wf, After(wf, one), SweepWake(r.now));
    assert After(wf, three) == Step1(wf, After(wf, two), AttemptRun(r.env));
  }

  lemma AwakeIsReady(wf: Workflow, db: Db, now: Time)
    requires DbOk(wf, db)
    requires db.run.status.Waiting? ==> db.run.wakeAt.Some? && db.run.wakeAt.value <= now
    ensures var next := Awake(db, now);
            && DbOk(wf, next) && next.logs == db.logs && Remaining(wf, next) == Remaining(wf, db)
            && next.run.retryCount == db.run.retryCount
            && (Over(db) ==> next == db) && (!Over(db) ==> next.run.status.Pending?)
  {
  }

  /** A good round ends the run, or leaves strictly less to do. */
  lemma RoundShrinks(wf: Workflow, before: seq<Event>, r: Round)
    requires GoodRound(wf, before, r)
    ensures var db, next := After(wf, before).db, After(wf, before + RoundEvents(r)).db;
            && (Over(db) ==> Over(next))
            && (Over(next) || Remaining(wf, next) < Remaining(wf, db))
  {
    var db := After(wf, before + r.meanwhile).db;
    MeanwhileShrinks(wf, before, r.meanwhile);
    AlwaysOk(wf, before + r.meanwhile);
    AfterRound(wf, before, r);
    AwakeIsReady(wf, db, r.now);
    if !Over(db) {
      ReadyIsEffective(wf, Awake(db, r.now), r.env);
      AttemptShrinks(wf, Awake(db, r.now), r.env);
    }
  }

  lemma OneMoreRound(before: seq<Event>, rounds: seq<Round>)
    requires rounds != []
    ensures before + AllEvents(rounds) == before + AllEvents(rounds[..|rounds| - 1]) + RoundEvents(rounds[|rounds| - 1])
  {
    Assoc(before, AllEvents(rounds[..|rounds| - 1]), RoundEvents(rounds[|rounds| - 1]));
  }

  lemma FewerGoodRounds(wf: Workflow, before: seq<Event>, rounds: seq<Round>)
    requires GoodRounds(wf, before, rounds) && rounds != []
    ensures GoodRounds(wf, before, rounds[..|rounds| - 1])
    ensures GoodRound(wf, before + AllEvents(rounds[..|rounds| - 1]), rounds[|rounds| - 1])
  {
    var init := rounds[..|rounds| - 1];
    forall i | 0 <= i < |init| ensures GoodRound(wf, before + AllEvents(init[..i]), init[i]) {
      assert init[..i] == rounds[..i] && init[i] == rounds[i];
    }
  }

  lemma {:induction false} RoundsAccounted(wf: Workflow, before: seq<Event>, rounds: seq<Round>)
    requires GoodRounds(wf, before, rounds)
    ensures var db, next := After(wf, before).db, After(wf, before + AllEvents(rounds)).db;
            Over(next) || Remaining(wf, next) + |rounds| <= Remaining(wf, db)
    decreases |rounds|
  {
    if rounds == [] {
      assert before + AllEvents(rounds) == before;
    } else {
      var init := rounds[..|rounds| - 1];
      FewerGoodRounds(wf, before, rounds);
      RoundsAccounted(wf, before, init);
      RoundShrinks(wf, before + AllEvents(init), rounds[|rounds| - 1]);
      OneMoreRound(before, rounds);
    }
  }

  /**
   Every run ends. From any reachable state, whatever happened before (manual retries included) and whatever else
   happens in between (manual retries excluded), after 8·N + 4 good rounds the run is completed or failed, N being
   the leaves of its tree.
   */
  lemma RunEnds(wf: Workflow, events: seq<Event>, rounds: seq<Round>)
    requires GoodRounds(wf, events, rounds) && |rounds| >= 8 * |Leaves(wf.steps)| + 4
    ensures Over(After(wf, events + AllEvents(rounds)).db)
  {
    RoundsAccounted(wf, events, rounds);
    AlwaysOk(wf, events + AllEvents(rounds));
    RemainingNonNegative(wf, After(wf, events + AllEvents(rounds)).db);
    FewLeafPaths(Leaves(wf.steps));
  }

  /* ---- The uninterrupted run ---- */

  /** Every executor succeeds. */
  ghost predicate Succeeds(env: Env) { forall p :: env.tick(p).exec.Succeeded? }

  /** Rounds with nothing in between, in which nothing dies or fails and every condition decides as `condition`. */
  ghost predicate Uninterrupted(rounds: seq<Round>, condition: (Path, ConditionGroup) -> bool) {
    forall i :: 0 <= i < |rounds| ==>
      rounds[i].meanwhile == [] && Succeeds(rounds[i].env) && rounds[i].env.condition == condition
  }

  lemma {:induction false} SucceedingWalkNeverFails(wf: Workflow, db: Db, leaves: seq<Leaf>, env: Env)
    requires !db.run.status.Failed? && Succeeds(env)
    ensures !RunLeaves(IndexOf(wf), db, leaves, env).0.run.status.Failed?
    decreases |leaves|
  {
    if leaves != [] {
      var (mid, o) := LeafOp(IndexOf(wf), db, leaves[0], env.tick(leaves[0].path));
      assert !mid.run.status.Failed?;
      if o.Proceed? {
        SucceedingWalkNeverFails(wf, mid, leaves[1..], env);
      }
    }
  }

  /** Every attempt of the schedule loads its workflow and logs, and no executor fails in it. */
  ghost predicate NothingFails(events: seq<Event>) {
    forall i :: 0 <= i < |events| && events[i].AttemptRun? ==> events[i].env.loads && Succeeds(events[i].env)
  }

  lemma {:induction false} NeverFailsAfter(wf: Workflow, before: seq<Event>, later: seq<Event>)
    requires wf.steps != [] && NothingFails(later) && !After(wf, before).db.run.status.Failed?
    ensures !After(wf, before + later).db.run.status.Failed?
    decreases |later|
  {
    if later == [] {
      assert before + later == before;
    } else {
      var rest, e := later[..|later| - 1], later[|later| - 1];
      OneEventMore(wf, before, later);
      NeverFailsAfter(wf, before, rest);
      StepNeverFails(wf, After(wf, before + rest), e);
    }
  }

  lemma StepNeverFails(wf: Workflow, w: World, e: Event)
    requires wf.steps != [] && !w.db.run.status.Failed? && (e.AttemptRun? ==> e.env.loads && Succeeds(e.env))
    ensures !Step1(wf, w, e).db.run.status.Failed?
  {
    if e.AttemptRun? {
      var plan := RootPlan(wf.steps, StartedPaths(w.db.logs), ForksOf(wf, e.env));
      SucceedingWalkNeverFails(wf, Claimed(w.db), plan, e.env);
    }
  }

  /** A schedule in which nothing fails and every condition decides as `condition`. */
  ghost predicate Clean(events: seq<Event>, condition: (Path, ConditionGroup) -> bool) {
    NothingFails(events) && SameConditions(events, condition)
  }

  lemma CleanConcat(a: seq<Event>, b: seq<Event>, condition: (Path, ConditionGroup) -> bool)
    requires Clean(a, condition) && Clean(b, condition)
    ensures Clean(a + b, condition)
  {
  }

  lemma RoundIsClean(r: Round, condition: (Path, ConditionGroup) -> bool)
    requires r.meanwhile == [] && r.env.loads && Succeeds(r.env) && r.env.condition == condition
    ensures Clean(RoundEvents(r), condition)
  {
    var events := [RecoverRun, SweepWake(r.now), AttemptRun(r.env)];
    assert r.meanwhile + events == events;
    assert !events[0].AttemptRun? && !events[1].AttemptRun? && events[2] == AttemptRun(r.env);
  }

  lemma {:induction false} UninterruptedIsClean(wf: Workflow, before: seq<Event>, rounds: seq<Round>, condition: (Path, ConditionGroup) -> bool)
    requires GoodRounds(wf, before, rounds) && Uninterrupted(rounds, condition)
    ensures Clean(AllEvents(rounds), condition)
    decreases |rounds|
  {
    if rounds != [] {
      var init, r := rounds[..|rounds| - 1], rounds[|rounds| - 1];
      FewerGoodRounds(wf, before, rounds);
      UninterruptedIsClean(wf, before, init, condition);
      RoundIsClean(r, condition);
      CleanConcat(AllEvents(init), RoundEvents(r), condition);
    }
  }

  /** The uninterrupted run completes, for every tree and its delays, and commits the plan of a single walk. */
  lemma {:induction false} UninterruptedCompletes(wf: Workflow, rounds: seq<Round>, condition: (Path, ConditionGroup) -> bool)
    requires wf.steps != [] && GoodRounds(wf, [], rounds) && Uninterrupted(rounds, condition)
    requires |rounds| >= 8 * |Leaves(wf.steps)| + 4
    ensures var db := After(wf, AllEvents(rounds)).db;
            && db.run.status.Completed?
            && Committed(db.logs) == PathsOf(RootPlan(wf.steps, {}, Forks(condition, wf.roll)))
  {
    UninterruptedIsClean(wf, [], rounds, condition);
    RunEnds(wf, [], rounds);
    assert [] + AllEvents(rounds) == AllEvents(rounds);
    NeverFailsAfter(wf, [], AllEvents(rounds));
    var k := AlwaysOnFreshPlan(wf, AllEvents(rounds), condition);
  }

  /** The latest deadline of the waiting rows. */
  function LatestDeadline(logs: seq<ActionLog>): (latest: Time)
    ensures forall i :: 0 <= i < |logs| && logs[i].status.LogWaiting? ==> WakeAtFromLog(logs[i].output) <= latest
  {
    if logs == [] then 0
    else
      var init, last := LatestDeadline(logs[..|logs| - 1]), logs[|logs| - 1];
      if last.status.LogWaiting? && WakeAtFromLog(last.output) > init then WakeAtFromLog(last.output) else init
  }

  /** The round that waits for whatever is parked and then attempts the run. */
  function CalmRound(db: Db, condition: (Path, ConditionGroup) -> bool): Round {
    var now := LatestDeadline(db.logs);
    Round([], now, Env(condition, _ => Tick(3, Succeeded(NoOutput), now, None, true), true, true, true))
  }

  lemma CalmRoundIsGood(wf: Workflow, before: seq<Event>, condition: (Path, ConditionGroup) -> bool)
    ensures GoodRound(wf, before, CalmRound(After(wf, before).db, condition))
  {
    var r := CalmRound(After(wf, before).db, condition);
    assert before + r.meanwhile == before;
    AlwaysOk(wf, before);
  }

  /** From any state there are uninterrupted rounds, however many, for every tree and every way its conditions may decide. */
  lemma {:induction false} UninterruptedExists(wf: Workflow, before: seq<Event>, condition: (Path, ConditionGroup) -> bool, n: nat)
    returns (rounds: seq<Round>)
    ensures |rounds| == n && GoodRounds(wf, before, rounds) && Uninterrupted(rounds, condition)
  {
    if n == 0 {
      rounds := [];
    } else {
      var init := UninterruptedExists(wf, before, condition, n - 1);
      var r := CalmRound(After(wf, before + AllEvents(init)).db, condition);
      CalmRoundIsGood(wf, before + AllEvents(init), condition);
      rounds := init + [r];
      forall i | 0 <= i < |rounds| ensures GoodRound(wf, before + AllEvents(rounds[..i]), rounds[i]) {
        assert rounds[..i] == init[..i];
        if i < |init| { assert rounds[i] == init[i]; } else { assert init[..i] == init; }
      }
    }
  }

  /* ---- Manual retries ---- */

  /** A manual retry makes a failed run pending with a fresh budget and keeps everything it has done; any other run it leaves alone. */
  lemma RetryResets(wf: Workflow, events: seq<Event>)
    ensures var db, next := After(wf, events).db, After(wf, events + [ManualRetry]).db;
            && next.logs == db.logs && next.waits == db.waits
            && next.run == if db.run.status.Failed? then db.run.(status := Pending, retryCount := 0, nextRetryAt := None) else db.run
  {
    assert (events + [ManualRetry])[..|events|] == events;
  }

  /**
   A failed run can always be brought to its end: from any reachable failed state a manual retry and 8·N + 4 good rounds
   in which no executor fails, whatever else happens in between, complete it.
   */
  lemma RetryCompletes(wf: Workflow, events: seq<Event>, rounds: seq<Round>)
    requires wf.steps != [] && After(wf, events).db.run.status.Failed?
    requires GoodRounds(wf, events + [ManualRetry], rounds) && NothingFails(AllEvents(rounds))
    requires |rounds| >= 8 * |Leaves(wf.steps)| + 4
    ensures After(wf, events + [ManualRetry] + AllEvents(rounds)).db.run.status.Completed?
  {
    RetryResets(wf, events);
    RunEnds(wf, events + [ManualRetry], rounds);
    NeverFailsAfter(wf, events + [ManualRetry], AllEvents(rounds));
  }

  /** Such rounds exist, and what the run then holds begins with every step committed before it failed. */
  lemma RetryCanComplete(wf: Workflow, events: seq<Event>, condition: (Path, ConditionGroup) -> bool) returns (rounds: seq<Round>)
    requires wf.steps != [] && After(wf, events).db.run.status.Failed?
    ensures GoodRounds(wf, events + [ManualRetry], rounds) && NothingFails(AllEvents(rounds))
    ensures var db, next := After(wf, events).db, After(wf, events + [ManualRetry] + AllEvents(rounds)).db;
            && next.run.status.Completed?
            && forall i :: 0 <= i < |db.logs| && db.logs[i].status.LogSuccess? ==> i < |next.logs| && next.logs[i] == db.logs[i]
  {
    rounds := UninterruptedExists(wf, events + [ManualRetry], condition, 8 * |Leaves(wf.steps)| + 4);
    UninterruptedIsClean(wf, events + [ManualRetry], rounds, condition);
    RetryCompletes(wf, events, rounds);
    Assoc(events, [ManualRetry], AllEvents(rounds));
    AlwaysEvolves(wf, events, [ManualRetry] + AllEvents(rounds));
    var db, next := After(wf, events).db, After(wf, events + [ManualRetry] + AllEvents(rounds)).db;
    assert forall i :: 0 <= i < |db.logs| ==> RowEvolves(db.logs[i], next.logs[i]);
  }
}
