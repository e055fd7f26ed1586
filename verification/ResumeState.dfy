/** How the engine's id- and path-keyed resume state relates to the action logs. */
module ResumeState {
  import opened StepTree
  import opened RunStore
  import opened RunLogs
  import opened RunRoutes

  /** Step ids are present and distinct, as the validator demands. */
  predicate UniqueIds(wf: Workflow) {
    && (forall l | l in Leaves(wf.steps) :: l.step.id != "")
    && (forall l, m | l in Leaves(wf.steps) && m in Leaves(wf.steps) :: l.step.id == m.step.id ==> l == m)
  }

  /** The keys of every step with a success or waiting log. */
  function StartedKeys(index: map<Path, StepId>, logs: seq<ActionLog>): set<Key> {
    set i, k | 0 <= i < |logs| && (logs[i].status == LogSuccess || logs[i].status == LogWaiting) && k in KeysAt(index, logs[i].path) :: k
  }

  predicate HasKey(keys: set<Key>, leaf: Leaf) {
    IdKey(leaf.step.id) in keys || PathKey(leaf.path) in keys
  }

  /** hasAnyStepStarted: some leaf under the list has started, looked up by id or by path. */
  predicate HasAnyStepStarted(steps: seq<Step>, i: nat, started: set<Key>, parent: Path, branch: Branch)
    requires i <= |steps|
    decreases steps, 1, |steps| - i
  {
    i < |steps| && (StepStarted(steps[i], started, BuildStepPath(parent, branch, i))
                    || HasAnyStepStarted(steps, i + 1, started, parent, branch))
  }

  predicate StepStarted(step: Step, started: set<Key>, path: Path)
    decreases step, 2
  {
    if step.IsFork() then
      HasAnyStepStarted(step.yesSteps, 0, started, path, Yes) || HasAnyStepStarted(step.noSteps, 0, started, path, No)
    else HasKey(started, Leaf(path, step))
  }

  predicate KeysMatch(leaves: seq<Leaf>, keys: set<Key>, paths: set<Path>) {
    forall l | l in leaves :: HasKey(keys, l) <==> l.path in paths
  }

  lemma {:induction false} StartedMeansTouched(steps: seq<Step>, i: nat, started: set<Key>, parent: Path, branch: Branch, paths: set<Path>)
    requires i <= |steps|
    requires KeysMatch(AllLeaves(steps, i, parent, branch), started, paths)
    ensures HasAnyStepStarted(steps, i, started, parent, branch) <==> Touched(AllLeaves(steps, i, parent, branch), paths)
    decreases steps, 1, |steps| - i
  {
    if i < |steps| {
      var step, path := steps[i], BuildStepPath(parent, branch, i);
      if step.IsFork() {
        assert forall l | l in StepLeaves(step, path) :: l in AllLeaves(steps, i, parent, branch);
        assert forall l | l in AllLeaves(step.yesSteps, 0, path, Yes) :: l in StepLeaves(step, path);
        StartedMeansTouched(step.yesSteps, 0, started, path, Yes, paths);
        StartedMeansTouched(step.noSteps, 0, started, path, No, paths);
      } else {
        assert Leaf(path, step) in StepLeaves(step, path);
      }
      StartedMeansTouched(steps, i + 1, started, parent, branch, paths);
    }
  }

  /* ---- The path index ---- */

  lemma {:induction false} IndexUnder(steps: seq<Step>, i: nat, parent: Path, branch: Branch)
    requires i <= |steps|
    ensures forall p | p in PathIndex(steps, i, parent, branch) :: Under(p, parent, branch, i)
    decreases steps, 1, |steps| - i
  {
    if i < |steps| {
      var step, path := steps[i], BuildStepPath(parent, branch, i);
      StepIndexUnder(step, path);
      IndexUnder(steps, i + 1, parent, branch);
      forall p | p in StepIndex(step, path) ensures Under(p, parent, branch, i) {
        assert p[..|path|] == path;
        assert p[|parent|] == path[|parent|] && p[..|parent|] == path[..|parent|] == parent;
      }
    }
  }

  lemma {:induction false} StepIndexUnder(step: Step, path: Path)
    ensures forall p | p in StepIndex(step, path) :: |p| >= |path| && p[..|path|] == path
    decreases step, 2
  {
    if step.IsFork() {
      IndexUnder(step.yesSteps, 0, path, Yes);
      IndexUnder(step.noSteps, 0, path, No);
    }
    forall p | p in StepIndex(step, path) ensures |p| >= |path| && p[..|path|] == path {
      if p != path {
        assert step.IsFork();
        assert p in PathIndex(step.yesSteps, 0, path, Yes) || p in PathIndex(step.noSteps, 0, path, No);
      }
    }
  }

  /** Every leaf with an id is found in the index under its own path. */
  lemma {:induction false} IndexFindsLeaf(steps: seq<Step>, i: nat, parent: Path, branch: Branch, leaf: Leaf)
    requires i <= |steps|
    requires leaf in AllLeaves(steps, i, parent, branch) && leaf.step.id != ""
    ensures leaf.path in PathIndex(steps, i, parent, branch) && PathIndex(steps, i, parent, branch)[leaf.path] == leaf.step.id
    decreases steps, 1, |steps| - i
  {
    var step, path := steps[i], BuildStepPath(parent, branch, i);
    IndexUnder(steps, i + 1, parent, branch);
    if leaf in StepLeaves(step, path) {
      StepLeavesUnder(step, path);
      assert leaf.path[..|path|][|parent|] == path[|parent|];
      if step.IsFork() {
        IndexUnder(step.noSteps, 0, path, No);
        LeavesUnder(step.yesSteps, 0, path, Yes);
        if leaf in AllLeaves(step.yesSteps, 0, path, Yes) {
          IndexFindsLeaf(step.yesSteps, 0, path, Yes, leaf);
          assert leaf.path !in PathIndex(step.noSteps, 0, path, No);
        } else {
          IndexFindsLeaf(step.noSteps, 0, path, No, leaf);
        }
      }
    } else {
      IndexFindsLeaf(steps, i + 1, parent, branch, leaf);
    }
  }

  lemma LeafKeys(wf: Workflow, leaf: Leaf)
    requires UniqueIds(wf) && IsLeafOf(wf, leaf)
    ensures KeysAt(IndexOf(wf), leaf.path) == {PathKey(leaf.path), IdKey(leaf.step.id)}
  {
    IndexFindsLeaf(wf.steps, 0, [], Root, leaf);
  }

  /** A row shares a key with a leaf only when it is that leaf's row. */
  lemma KeyOwner(wf: Workflow, row: ActionLog, leaf: Leaf)
    requires UniqueIds(wf) && RowOk(wf, row) && IsLeafOf(wf, leaf)
    ensures IdKey(leaf.step.id) in KeysAt(IndexOf(wf), row.path) <==> row.path == leaf.path
    ensures PathKey(leaf.path) in KeysAt(IndexOf(wf), row.path) <==> row.path == leaf.path
  {
    var l :| l in Leaves(wf.steps) && l.path == row.path;
    LeafKeys(wf, l);
    LeafKeys(wf, leaf);
  }

  /** Looking a leaf up by id or by path gives the same answer, and the log's. */
  lemma KeysTellDone(wf: Workflow, logs: seq<ActionLog>, leaf: Leaf)
    requires UniqueIds(wf) && LogsOk(wf, logs) && IsLeafOf(wf, leaf)
    ensures HasKey(DoneKeys(IndexOf(wf), logs), leaf) <==> IsDone(logs, leaf.path)
    ensures HasKey(StartedKeys(IndexOf(wf), logs), leaf) <==> leaf.path in StartedPaths(logs)
  {
    forall i | 0 <= i < |logs|
      ensures IdKey(leaf.step.id) in KeysAt(IndexOf(wf), logs[i].path) <==> logs[i].path == leaf.path
      ensures PathKey(leaf.path) in KeysAt(IndexOf(wf), logs[i].path) <==> logs[i].path == leaf.path
    {
      assert RowOk(wf, logs[i]);
      KeyOwner(wf, logs[i], leaf);
    }
  }

  /* ---- Outputs ---- */

  function Lookup(actions: map<Key, Output>, key: Key): Output {
    if key in actions then actions[key] else NoOutput
  }

  /** Every committed output is readable under its step's id, and nothing else is. */
  predicate OutputsReadable(wf: Workflow, logs: seq<ActionLog>, actions: map<Key, Output>) {
    && (forall l, i | l in Leaves(wf.steps) && 0 <= i < |logs| ::
          logs[i].status.LogSuccess? && logs[i].path == l.path ==> Lookup(actions, IdKey(l.step.id)) == logs[i].output)
    && (forall l | l in Leaves(wf.steps) :: IdKey(l.step.id) in actions ==> IsDone(logs, l.path))
  }

  /** The parked rows, found by path. A finished step may linger here. */
  ghost predicate WaitingIndexed(logs: seq<ActionLog>, waiting: map<Path, nat>) {
    && (forall p :: FindWaiting(logs, p) >= 0 ==> p in waiting && waiting[p] == FindWaiting(logs, p))
    && (forall p | p in waiting :: FindWaiting(logs, p) >= 0 || IsDone(logs, p))
  }

  /** The whole resume state says what the log says. */
  ghost predicate Mirrors(wf: Workflow, logs: seq<ActionLog>,
                          completed: set<Key>, started: set<Key>, waiting: map<Path, nat>, actions: map<Key, Output>)
  {
    && completed == DoneKeys(IndexOf(wf), logs)
    && started == StartedKeys(IndexOf(wf), logs)
    && WaitingIndexed(logs, waiting)
    && OutputsReadable(wf, logs, actions)
  }

  lemma KeysAppend(index: map<Path, StepId>, logs: seq<ActionLog>, row: ActionLog)
    ensures DoneKeys(index, logs + [row]) == DoneKeys(index, logs) + (if row.status.LogSuccess? then KeysAt(index, row.path) else {})
    ensures StartedKeys(index, logs + [row])
         == StartedKeys(index, logs) + (if row.status.LogSuccess? || row.status.LogWaiting? then KeysAt(index, row.path) else {})
  {
    var all := logs + [row];
    assert all[|logs|] == row;
    forall k | k in DoneKeys(index, logs) ensures k in DoneKeys(index, all) {
      var i :| 0 <= i < |logs| && logs[i].status == LogSuccess && k in KeysAt(index, logs[i].path);
      assert all[i] == logs[i];
    }
    forall k | k in StartedKeys(index, logs) ensures k in StartedKeys(index, all) {
      var i :| 0 <= i < |logs| && (logs[i].status == LogSuccess || logs[i].status == LogWaiting) && k in KeysAt(index, logs[i].path);
      assert all[i] == logs[i];
    }
  }

  lemma KeysFlip(index: map<Path, StepId>, logs: seq<ActionLog>, w: nat, row: ActionLog)
    requires w < |logs| && logs[w].status.LogWaiting? && row.status.LogSuccess? && row.path == logs[w].path
    ensures DoneKeys(index, logs[w := row]) == DoneKeys(index, logs) + KeysAt(index, row.path)
    ensures StartedKeys(index, logs[w := row]) == StartedKeys(index, logs)
    ensures KeysAt(index, row.path) <= StartedKeys(index, logs)
  {
    var all := logs[w := row];
    forall k | k in KeysAt(index, row.path) ensures k in DoneKeys(index, all) && k in StartedKeys(index, logs) {
      assert all[w] == row;
      assert k in KeysAt(index, logs[w].path);
    }
    forall k | k in DoneKeys(index, logs) ensures k in DoneKeys(index, all) {
      var i :| 0 <= i < |logs| && logs[i].status == LogSuccess && k in KeysAt(index, logs[i].path);
      assert all[i] == logs[i];
    }
    forall k | k in StartedKeys(index, logs) ensures k in StartedKeys(index, all) {
      var i :| 0 <= i < |logs| && (logs[i].status == LogSuccess || logs[i].status == LogWaiting) && k in KeysAt(index, logs[i].path);
      assert all[i].path == logs[i].path;
    }
    forall k | k in StartedKeys(index, all) ensures k in StartedKeys(index, logs) {
      var i :| 0 <= i < |all| && (all[i].status == LogSuccess || all[i].status == LogWaiting) && k in KeysAt(index, all[i].path);
      assert logs[i].path == all[i].path;
    }
  }

  lemma WaitingIndexedAppend(logs: seq<ActionLog>, row: ActionLog, waiting: map<Path, nat>)
    requires WaitingIndexed(logs, waiting) && !row.status.LogWaiting?
    ensures WaitingIndexed(logs + [row], waiting)
  {
    var all := logs + [row];
    forall p ensures FindWaiting(all, p) == FindWaiting(logs, p) && (IsDone(logs, p) ==> IsDone(all, p)) {
      assert all[..|logs|] == logs;
      if IsDone(logs, p) {
        var i :| 0 <= i < |logs| && logs[i].status == LogSuccess && logs[i].path == p;
        assert all[i] == logs[i];
      }
    }
  }

  lemma WaitingIndexedFlip(logs: seq<ActionLog>, w: nat, row: ActionLog, waiting: map<Path, nat>)
    requires WaitingIndexed(logs, waiting) && FinalRowIsLast(logs)
    requires w < |logs| && logs[w].status.LogWaiting? && row.status.LogSuccess? && row.path == logs[w].path
    ensures WaitingIndexed(logs[w := row], waiting)
  {
    var all := logs[w := row];
    forall p
      ensures p != row.path ==> FindWaiting(all, p) == FindWaiting(logs, p)
      ensures p == row.path ==> FindWaiting(all, p) < 0 && IsDone(all, p)
      ensures IsDone(logs, p) ==> IsDone(all, p)
    {
      FlipWaitingIndex(logs, w, row, p);
      assert all[w] == row;
      if IsDone(logs, p) {
        var i :| 0 <= i < |logs| && logs[i].status == LogSuccess && logs[i].path == p;
        assert all[i] == logs[i];
      }
    }
  }

  /** A step's first success row makes its output readable and disturbs no other. */
  lemma OutputsAdd(wf: Workflow, logs: seq<ActionLog>, all: seq<ActionLog>, w: nat, leaf: Leaf, actions: map<Key, Output>)
    requires UniqueIds(wf) && IsLeafOf(wf, leaf) && OutputsReadable(wf, logs, actions)
    requires w < |all| && all[w].path == leaf.path && all[w].status.LogSuccess? && !IsDone(logs, leaf.path)
    requires |logs| <= |all|
    requires forall i :: 0 <= i < |all| && i != w ==> i < |logs| && all[i] == logs[i]
    requires w < |logs| ==> !logs[w].status.LogSuccess?
    ensures OutputsReadable(wf, all, actions[IdKey(leaf.step.id) := all[w].output])
  {
    var read := actions[IdKey(leaf.step.id) := all[w].output];
    forall l, i | l in Leaves(wf.steps) && 0 <= i < |all| && all[i].status.LogSuccess? && all[i].path == l.path
      ensures Lookup(read, IdKey(l.step.id)) == all[i].output
    {
      if i == w { SamePathSameLeaf(wf, l, leaf); } else { assert l.path != leaf.path; }
    }
    forall l | l in Leaves(wf.steps) && IdKey(l.step.id) in read ensures IsDone(all, l.path) {
      if l != leaf {
        var i :| 0 <= i < |logs| && logs[i].status == LogSuccess && logs[i].path == l.path;
        assert all[i] == logs[i];
      }
    }
  }

  /** A row that is not a success leaves the outputs as they are. */
  lemma OutputsSkip(wf: Workflow, logs: seq<ActionLog>, row: ActionLog, actions: map<Key, Output>)
    requires OutputsReadable(wf, logs, actions) && !row.status.LogSuccess?
    ensures OutputsReadable(wf, logs + [row], actions)
  {
    var all := logs + [row];
    forall l | l in Leaves(wf.steps) && IdKey(l.step.id) in actions ensures IsDone(all, l.path) {
      var i :| 0 <= i < |logs| && logs[i].status == LogSuccess && logs[i].path == l.path;
      assert all[i] == logs[i];
    }
  }

  /** Committing a new success row and marking its keys keeps the state in step with the log. */
  lemma MirrorsAppendSuccess(wf: Workflow, logs: seq<ActionLog>, row: ActionLog, leaf: Leaf,
                             completed: set<Key>, started: set<Key>, waiting: map<Path, nat>, actions: map<Key, Output>)
    requires UniqueIds(wf) && IsLeafOf(wf, leaf)
    requires Mirrors(wf, logs, completed, started, waiting, actions)
    requires row.status.LogSuccess? && row.path == leaf.path && !IsDone(logs, leaf.path)
    ensures var keys := {IdKey(leaf.step.id), PathKey(leaf.path)};
            Mirrors(wf, logs + [row], completed + keys, started + keys, waiting, actions[IdKey(leaf.step.id) := row.output])
  {
    KeysAppend(IndexOf(wf), logs, row);
    LeafKeys(wf, leaf);
    WaitingIndexedAppend(logs, row, waiting);
    OutputsAdd(wf, logs, logs + [row], |logs|, leaf, actions);
  }

  /** Finishing a parked row and marking its keys keeps the state in step with the log. */
  lemma MirrorsFlip(wf: Workflow, logs: seq<ActionLog>, w: nat, row: ActionLog, leaf: Leaf,
                    completed: set<Key>, started: set<Key>, waiting: map<Path, nat>, actions: map<Key, Output>)
    requires UniqueIds(wf) && FinalRowIsLast(logs) && IsLeafOf(wf, leaf)
    requires Mirrors(wf, logs, completed, started, waiting, actions)
    requires w < |logs| && logs[w].status.LogWaiting? && logs[w].path == leaf.path
    requires row.status.LogSuccess? && row.path == leaf.path && !IsDone(logs, leaf.path)
    ensures var keys := {IdKey(leaf.step.id), PathKey(leaf.path)};
            Mirrors(wf, logs[w := row], completed + keys, started + keys, waiting, actions[IdKey(leaf.step.id) := row.output])
  {
    KeysFlip(IndexOf(wf), logs, w, row);
    LeafKeys(wf, leaf);
    WaitingIndexedFlip(logs, w, row, waiting);
    OutputsAdd(wf, logs, logs[w := row], w, leaf, actions);
  }

  lemma FlipWaitingIndex(logs: seq<ActionLog>, w: nat, row: ActionLog, p: Path)
    requires w < |logs| && logs[w].status.LogWaiting? && row.status.LogSuccess? && row.path == logs[w].path
    requires FinalRowIsLast(logs)
    ensures p != row.path ==> FindWaiting(logs[w := row], p) == FindWaiting(logs, p)
    ensures p == row.path ==> FindWaiting(logs[w := row], p) < 0
  {
    var all := logs[w := row];
    var u, v := FindWaiting(logs, p), FindWaiting(all, p);
    if p != row.path {
      if u >= 0 { assert all[u] == logs[u]; }
      if v >= 0 { assert all[v] == logs[v]; }
    }
  }

  /* ---- Reading one more row while rebuilding ---- */

  lemma RebuildSuccess(wf: Workflow, logs: seq<ActionLog>, row: ActionLog, leaf: Leaf,
                       completed: set<Key>, started: set<Key>, waiting: map<Path, nat>, actions: map<Key, Output>)
    requires UniqueIds(wf) && IsLeafOf(wf, leaf)
    requires Mirrors(wf, logs, completed, started, waiting, actions)
    requires row.status.LogSuccess? && row.path == leaf.path && !IsDone(logs, leaf.path)
    ensures var keys := {IdKey(leaf.step.id), PathKey(leaf.path)};
            var read := if row.output.NoOutput? then actions
                        else actions[PathKey(row.path) := row.output][IdKey(leaf.step.id) := row.output];
            Mirrors(wf, logs + [row], completed + keys, started + keys, waiting, read)
  {
    if row.output.NoOutput? {
      MirrorsAppendSuccess(wf, logs, row, leaf, completed, started, waiting, actions);
      var read := actions[IdKey(leaf.step.id) := NoOutput];
      assert forall k: Key :: Lookup(read, k) == Lookup(actions, k);
    } else {
      MirrorsAppendSuccess(wf, logs, row, leaf, completed, started, waiting, actions[PathKey(row.path) := row.output]);
    }
  }

  lemma RebuildWaiting(wf: Workflow, logs: seq<ActionLog>, row: ActionLog, leaf: Leaf,
                       completed: set<Key>, started: set<Key>, waiting: map<Path, nat>, actions: map<Key, Output>)
    requires UniqueIds(wf) && IsLeafOf(wf, leaf)
    requires Mirrors(wf, logs, completed, started, waiting, actions)
    requires row.status.LogWaiting? && row.path == leaf.path
    ensures Mirrors(wf, logs + [row], completed, started + {IdKey(leaf.step.id), PathKey(leaf.path)}, waiting[row.path := |logs|], actions)
  {
    KeysAppend(IndexOf(wf), logs, row);
    LeafKeys(wf, leaf);
    OutputsSkip(wf, logs, row, actions);
    WaitingIndexedPark(logs, row, waiting);
  }

  lemma WaitingIndexedPark(logs: seq<ActionLog>, row: ActionLog, waiting: map<Path, nat>)
    requires WaitingIndexed(logs, waiting) && row.status.LogWaiting?
    ensures WaitingIndexed(logs + [row], waiting[row.path := |logs|])
  {
    var all := logs + [row];
    forall p ensures FindWaiting(all, p) == (if p == row.path then |logs| else FindWaiting(logs, p)) && (IsDone(logs, p) ==> IsDone(all, p)) {
      assert all[..|logs|] == logs;
      if IsDone(logs, p) {
        var i :| 0 <= i < |logs| && logs[i].status == LogSuccess && logs[i].path == p;
        assert all[i] == logs[i];
      }
    }
  }

  lemma RebuildOther(wf: Workflow, logs: seq<ActionLog>, row: ActionLog,
                     completed: set<Key>, started: set<Key>, waiting: map<Path, nat>, actions: map<Key, Output>)
    requires Mirrors(wf, logs, completed, started, waiting, actions)
    requires !row.status.LogSuccess? && !row.status.LogWaiting?
    ensures Mirrors(wf, logs + [row], completed, started, waiting, actions)
  {
    KeysAppend(IndexOf(wf), logs, row);
    OutputsSkip(wf, logs, row, actions);
    WaitingIndexedAppend(logs, row, waiting);
  }
}
