/** Bounded enrolment chains (executor_enroll_records.go, and enrollRun of engine.go). */
module Enrolment {
  import opened Common

  type RunId = nat
  type WorkflowId = nat
  type RecordId = nat

  const MAX_ENROLL_DEPTH := 2

  /** The idempotency key of an enrolled run; hashing it is taken to be injective. */
  datatype EnrollKey = EnrollKey(source: RunId, target: WorkflowId, record: RecordId)

  /** A run: how deep in an enrolment chain it is, and the key it was created under (None for a triggered run). */
  datatype Run = Run(depth: int, key: Option<EnrollKey>)

  /** Runs by id; ids are handed out in order. */
  type Runs = seq<Run>

  predicate KeyTaken(runs: Runs, key: EnrollKey) {
    exists i | 0 <= i < |runs| :: runs[i].key == Some(key)
  }

  /** EnrollRun: insert unless the key exists. */
  function EnrollOne(runs: Runs, key: EnrollKey, depth: int): Runs {
    if KeyTaken(runs, key) then runs else runs + [Run(depth, Some(key))]
  }

  function EnrollAll(runs: Runs, source: RunId, target: WorkflowId, records: seq<RecordId>, depth: int): Runs {
    if records == [] then runs
    else EnrollOne(EnrollAll(runs, source, target, records[..|records| - 1], depth), EnrollKey(source, target, records[|records| - 1]), depth)
  }

  /**
   What looking up the target and listing the records gives: a bad id or no such workflow, an inactive one, a failing
   load, no object to list, or a listing error, which its own classification calls retryable or not.
   */
  datatype Lookup =
    | Found(records: seq<RecordId>)
    | BadTarget
    | TargetInactive
    | LoadFails
    | NoObject
    | ListingFails(retryable: bool)

  datatype Result =
    | Enrolled(matched: nat, enrolled: nat)
    | DepthLimit
    | Rejected
    | Retryable

  class RunTable {
    var runs: Runs

    constructor ()
      ensures runs == []
    {
      runs := [];
    }

    /** A run started by an ordinary trigger. */
    method Trigger() returns (id: RunId)
      modifies this
      ensures runs == old(runs) + [Run(0, None)] && id == |old(runs)|
    {
      id := |runs|;
      runs := runs + [Run(0, None)];
    }

    /** EnrollRecordsExecutor.Execute for run `source`; `failAt` is the record whose insert fails, if any. */
    method Execute(source: RunId, target: WorkflowId, lookup: Lookup, failAt: Option<nat>) returns (r: Result)
      requires source < |runs|
      modifies this
      ensures |old(runs)| <= |runs|
      ensures old(runs)[source].depth >= MAX_ENROLL_DEPTH ==> r.DepthLimit? && runs == old(runs)
      ensures old(runs)[source].depth < MAX_ENROLL_DEPTH && !lookup.Found? ==>
        runs == old(runs) && r == if lookup.LoadFails? || lookup == ListingFails(true) then Retryable else Rejected
      ensures old(runs)[source].depth < MAX_ENROLL_DEPTH && lookup.Found? ==>
        var n := if failAt.Some? && failAt.value < |lookup.records| then failAt.value else |lookup.records|;
        && runs == EnrollAll(old(runs), source, target, lookup.records[..n], old(runs)[source].depth + 1)
        && r == if n < |lookup.records| then Retryable else Enrolled(|lookup.records|, |runs| - |old(runs)|)
    {
      var depth := runs[source].depth;
      if depth >= MAX_ENROLL_DEPTH { return DepthLimit; }
      match lookup {
        case BadTarget => return Rejected;
        case TargetInactive => return Rejected;
        case LoadFails => return Retryable;
        case NoObject => return Rejected;
        case ListingFails(retryable) => return if retryable then Retryable else Rejected;
        case Found(records) =>
          var enrolled := 0;
          for i := 0 to |records|
            invariant failAt.Some? ==> i <= failAt.value || |records| <= failAt.value
            invariant runs == EnrollAll(old(runs), source, target, records[..i], depth + 1)
            invariant enrolled == |runs| - |old(runs)|
          {
            if failAt == Some(i) { return Retryable; }
            assert records[..i + 1][..i] == records[..i];
            var key := EnrollKey(source, target, records[i]);
            if !KeyTaken(runs, key) {
              runs := runs + [Run(depth + 1, Some(key))];
              enrolled := enrolled + 1;
            }
          }
          assert records[..|records|] == records;
          return Enrolled(|records|, enrolled);
      }
    }
  }

  /* ---- Any schedule of triggers, executions and retries ---- */

  datatype Event =
    | Triggered
    | Executed(source: RunId, target: WorkflowId, records: seq<RecordId>)

  function Step(runs: Runs, e: Event): Runs {
    match e
    case Triggered => runs + [Run(0, None)]
    case Executed(source, target, records) =>
      if source < |runs| && runs[source].depth < MAX_ENROLL_DEPTH
      then EnrollAll(runs, source, target, records, runs[source].depth + 1) else runs
  }

  function After(runs: Runs, events: seq<Event>): Runs {
    if events == [] then runs else Step(After(runs, events[..|events| - 1]), events[|events| - 1])
  }

  predicate RunOk(runs: Runs, i: nat)
    requires i < |runs|
  {
    && 0 <= runs[i].depth <= MAX_ENROLL_DEPTH
    && (runs[i].key.None? ==> runs[i].depth == 0)
    && (runs[i].key.Some? ==> runs[i].key.value.source < i && runs[i].depth == runs[runs[i].key.value.source].depth + 1)
  }

  /** Triggered runs sit at depth 0, enrolled ones one below their source; no key occurs twice. */
  predicate ChainsOk(runs: Runs) {
    && (forall i :: 0 <= i < |runs| ==> RunOk(runs, i))
    && (forall i, j :: 0 <= i < j < |runs| && runs[i].key.Some? ==> runs[i].key != runs[j].key)
  }

  lemma {:induction false} EnrollAllOk(runs: Runs, source: RunId, target: WorkflowId, records: seq<RecordId>)
    requires ChainsOk(runs) && source < |runs| && runs[source].depth < MAX_ENROLL_DEPTH
    ensures var next := EnrollAll(runs, source, target, records, runs[source].depth + 1);
            ChainsOk(next) && runs <= next && forall r | r in records :: KeyTaken(next, EnrollKey(source, target, r))
    decreases |records|
  {
    if records != [] {
      var n := |records| - 1;
      var mid := EnrollAll(runs, source, target, records[..n], runs[source].depth + 1);
      var key := EnrollKey(source, target, records[n]);
      EnrollAllOk(runs, source, target, records[..n]);
      assert records == records[..n] + [records[n]];
      var next := EnrollOne(mid, key, runs[source].depth + 1);
      assert mid[source] == runs[source];
      forall i | 0 <= i < |next| ensures RunOk(next, i) {
        assert RunOk(runs, source);
        if i < |mid| { assert RunOk(mid, i); }
      }
      if !KeyTaken(mid, key) { assert next[|mid|].key == Some(key); }
      forall k | KeyTaken(mid, k) ensures KeyTaken(next, k) {
        var i :| 0 <= i < |mid| && mid[i].key == Some(k);
        assert next[i].key == Some(k);
      }
    }
  }

  lemma TriggerOk(runs: Runs)
    requires ChainsOk(runs)
    ensures ChainsOk(runs + [Run(0, None)])
  {
    var next := runs + [Run(0, None)];
    forall i | 0 <= i < |next| ensures RunOk(next, i) {
      if i < |runs| { assert RunOk(runs, i); }
    }
  }

  lemma StepOk(runs: Runs, e: Event)
    requires ChainsOk(runs)
    ensures ChainsOk(Step(runs, e)) && runs <= Step(runs, e)
  {
    match e
    case Triggered => TriggerOk(runs);
    case Executed(source, target, records) =>
      if source < |runs| && runs[source].depth < MAX_ENROLL_DEPTH {
        EnrollAllOk(runs, source, target, records);
      }
  }

  lemma {:induction false} ChainsAlwaysOk(runs: Runs, events: seq<Event>)
    requires ChainsOk(runs)
    ensures ChainsOk(After(runs, events)) && runs <= After(runs, events)
    decreases |events|
  {
    if events != [] {
      ChainsAlwaysOk(runs, events[..|events| - 1]);
      StepOk(After(runs, events[..|events| - 1]), events[|events| - 1]);
    }
  }

  /** Every run ever created is at most two enrolments away from a triggered one. */
  lemma DepthAtMostTwo(events: seq<Event>, i: nat)
    requires i < |After([], events)|
    ensures 0 <= After([], events)[i].depth <= 2
  {
    ChainsAlwaysOk([], events);
    assert RunOk(After([], events), i);
  }

  /** Two enrolments away is as far as it goes, and it goes that far: a triggered run enrols, and so does the run it enrolled. */
  lemma DepthTwoReached(target: WorkflowId, record: RecordId)
    ensures After([], [Triggered, Executed(0, target, [record]), Executed(1, target, [record])])
         == [Run(0, None), Run(1, Some(EnrollKey(0, target, record))), Run(2, Some(EnrollKey(1, target, record)))]
  {
    var e0, e1, e2 := Triggered, Executed(0, target, [record]), Executed(1, target, [record]);
    assert [e0, e1, e2][..2] == [e0, e1] && [e0, e1][..1] == [e0] && [e0][..0] == [];
    var one := [Run(0, None)];
    var two := one + [Run(1, Some(EnrollKey(0, target, record)))];
    assert After([], []) + [Run(0, None)] == one;
    assert After([], [e0]) == one;
    EnrollsOne(one, 0, target, record, 1);
    EnrollsOne(two, 1, target, record, 2);
  }

  lemma EnrollsOne(runs: Runs, source: RunId, target: WorkflowId, record: RecordId, depth: int)
    requires !KeyTaken(runs, EnrollKey(source, target, record))
    ensures EnrollAll(runs, source, target, [record], depth) == runs + [Run(depth, Some(EnrollKey(source, target, record)))]
  {
    assert [record][..0] == [];
  }

  lemma {:induction false} EnrollAllExactly(runs: Runs, source: RunId, target: WorkflowId, records: seq<RecordId>, depth: int)
    ensures var next := EnrollAll(runs, source, target, records, depth);
            && runs <= next
            && (forall i | |runs| <= i < |next| :: next[i].depth == depth && next[i].key.Some?)
            && (forall k :: KeyTaken(next, k) <==> KeyTaken(runs, k) || (k.source == source && k.target == target && k.record in records))
    decreases |records|
  {
    if records != [] {
      var n := |records| - 1;
      EnrollAllExactly(runs, source, target, records[..n], depth);
      assert records == records[..n] + [records[n]];
      OneMoreKey(EnrollAll(runs, source, target, records[..n], depth), EnrollKey(source, target, records[n]), depth);
    }
  }

  lemma OneMoreKey(runs: Runs, key: EnrollKey, depth: int)
    ensures forall k :: KeyTaken(EnrollOne(runs, key, depth), k) <==> KeyTaken(runs, k) || k == key
  {
    var next := EnrollOne(runs, key, depth);
    forall k ensures KeyTaken(next, k) <==> KeyTaken(runs, k) || k == key {
      if KeyTaken(runs, k) {
        var i :| 0 <= i < |runs| && runs[i].key == Some(k);
        assert next[i].key == Some(k);
      }
      if k == key && !KeyTaken(runs, key) { assert next[|runs|].key == Some(k); }
    }
  }

  /**
   What executing an enrolment does: a run at depth 0 or 1 enrols every listed record, one deeper than itself, and
   nothing else; a run at depth 2 enrols nothing.
   */
  lemma EnrollsExactly(runs: Runs, source: RunId, target: WorkflowId, records: seq<RecordId>)
    requires ChainsOk(runs) && source < |runs|
    ensures var next, depth := Step(runs, Executed(source, target, records)), runs[source].depth;
            && (depth == 0 || depth == 1 || depth == 2)
            && (depth == 2 ==> next == runs)
            && (depth < 2 ==>
                  && runs <= next
                  && (forall i | |runs| <= i < |next| :: next[i].depth == depth + 1 && next[i].key.Some?)
                  && (forall k :: KeyTaken(next, k) <==> KeyTaken(runs, k) || (k.source == source && k.target == target && k.record in records)))
  {
    assert RunOk(runs, source);
    EnrollAllExactly(runs, source, target, records, runs[source].depth + 1);
  }

  /** Executing the same enrolment again, as a retry does, creates nothing. */
  lemma RetryEnrollsNothing(runs: Runs, source: RunId, target: WorkflowId, records: seq<RecordId>)
    requires ChainsOk(runs) && source < |runs|
    ensures var once := Step(runs, Executed(source, target, records));
            Step(once, Executed(source, target, records)) == once
  {
    if runs[source].depth < MAX_ENROLL_DEPTH {
      EnrollAllOk(runs, source, target, records);
      var once := Step(runs, Executed(source, target, records));
      assert once[source] == runs[source];
      AllTaken(once, source, target, records, runs[source].depth + 1);
    }
  }

  lemma {:induction false} AllTaken(runs: Runs, source: RunId, target: WorkflowId, records: seq<RecordId>, depth: int)
    requires forall r | r in records :: KeyTaken(runs, EnrollKey(source, target, r))
    ensures EnrollAll(runs, source, target, records, depth) == runs
    decreases |records|
  {
    if records != [] {
      var n := |records| - 1;
      assert records == records[..n] + [records[n]];
      AllTaken(runs, source, target, records[..n], depth);
    }
  }

  /* ---- How many runs one trigger can lead to ---- */

  /** The runs enrolled by a run. */
  function Children(runs: Runs, source: RunId): set<RunId> {
    set i | 0 <= i < |runs| && runs[i].key.Some? && runs[i].key.value.source == source
  }

  function ChildrenOfAll(runs: Runs, sources: set<RunId>): set<RunId> {
    set i | 0 <= i < |runs| && runs[i].key.Some? && runs[i].key.value.source in sources
  }

  lemma OneMoreTimes(n: nat, b: nat)
    ensures (n + 1) * b == n * b + b
  {
  }

  lemma {:induction false} ManyChildren(runs: Runs, sources: set<RunId>, b: nat)
    requires forall s | s in sources :: |Children(runs, s)| <= b
    ensures |ChildrenOfAll(runs, sources)| <= |sources| * b
    decreases |sources|
  {
    if sources == {} {
      assert ChildrenOfAll(runs, sources) == {};
    } else {
      var s :| s in sources;
      var rest := sources - {s};
      ManyChildren(runs, rest, b);
      assert ChildrenOfAll(runs, sources) == Children(runs, s) + ChildrenOfAll(runs, rest);
      assert |sources| == |rest| + 1;
      OneMoreTimes(|rest|, b);
    }
  }

  lemma SourceIsAbove(runs: Runs, i: nat)
    requires ChainsOk(runs) && i < |runs| && runs[i].key.Some?
    ensures var source := runs[i].key.value.source;
            source < i && runs[source].depth >= 0 && runs[i].depth == runs[source].depth + 1 && runs[i].depth <= MAX_ENROLL_DEPTH
  {
    assert RunOk(runs, i);
    assert RunOk(runs, runs[i].key.value.source);
  }

  /** Every run is the one triggered, a child of it, or a grandchild. */
  lemma ThreeGenerations(runs: Runs, i: nat)
    requires ChainsOk(runs) && runs != [] && forall j :: 1 <= j < |runs| ==> runs[j].key.Some?
    requires i < |runs|
    ensures i == 0 || i in ChildrenOfAll(runs, {0}) || i in ChildrenOfAll(runs, ChildrenOfAll(runs, {0}))
  {
    if i != 0 {
      SourceIsAbove(runs, i);
      var j := runs[i].key.value.source;
      if j != 0 {
        SourceIsAbove(runs, j);
        var k := runs[j].key.value.source;
        if k != 0 { SourceIsAbove(runs, k); }
        assert j in ChildrenOfAll(runs, {0});
      }
    }
  }

  /** One trigger, each run enrolling at most b records however often it is retried: at most 1 + b + b*b runs, ever. */
  lemma AtMostOnePlusBPlusBSquared(events: seq<Event>, b: nat)
    requires forall i :: 0 <= i < |events| ==> events[i].Executed?
    requires var runs := After([Run(0, None)], events); forall s | 0 <= s < |runs| :: |Children(runs, s)| <= b
    ensures |After([Run(0, None)], events)| <= 1 + b + b * b
  {
    var start, runs := [Run(0, None)], After([Run(0, None)], events);
    assert RunOk(start, 0);
    ChainsAlwaysOk(start, events);
    OnlyOneTriggered(start, events);
    var d1 := ChildrenOfAll(runs, {0});
    var d2 := ChildrenOfAll(runs, d1);
    ManyChildren(runs, {0}, b);
    ManyChildren(runs, d1, b);
    MulMonotone(|d1|, b, b);
    IdsExactly(|runs|);
    forall i | i in Ids(|runs|) ensures i in {0} + d1 + d2 {
      ThreeGenerations(runs, i);
    }
    SubsetSize(Ids(|runs|), {0} + d1 + d2);
    UnionSize({0}, d1, d2);
  }

  lemma UnionSize(a: set<RunId>, b: set<RunId>, c: set<RunId>)
    ensures |a + b + c| <= |a| + |b| + |c|
  {
  }

  lemma MulMonotone(x: nat, y: nat, b: nat)
    requires x <= y
    ensures x * b <= y * b
  {
  }

  /** The first n run ids. */
  function Ids(n: nat): set<RunId> { if n == 0 then {} else Ids(n - 1) + {n - 1} }

  lemma {:induction false} IdsExactly(n: nat)
    ensures |Ids(n)| == n && forall i: RunId :: i in Ids(n) <==> i < n
  {
    if n > 0 {
      IdsExactly(n - 1);
    }
  }

  /** Executions only ever add enrolled runs. */
  lemma {:induction false} OnlyOneTriggered(runs: Runs, events: seq<Event>)
    requires ChainsOk(runs) && forall i :: 0 <= i < |events| ==> events[i].Executed?
    ensures var next := After(runs, events); |next| >= |runs| && forall i :: |runs| <= i < |next| ==> next[i].key.Some?
    decreases |events|
  {
    if events != [] {
      var n := |events| - 1;
      var mid := After(runs, events[..n]);
      OnlyOneTriggered(runs, events[..n]);
      ChainsAlwaysOk(runs, events[..n]);
      var e := events[n];
      if e.source < |mid| && mid[e.source].depth < MAX_ENROLL_DEPTH {
        EnrollAllKeys(mid, e.source, e.target, e.records, mid[e.source].depth + 1);
      }
    }
  }

  lemma {:induction false} EnrollAllKeys(runs: Runs, source: RunId, target: WorkflowId, records: seq<RecordId>, depth: int)
    ensures var next := EnrollAll(runs, source, target, records, depth);
            runs <= next && forall i :: |runs| <= i < |next| ==> next[i].key.Some?
    decreases |records|
  {
    if records != [] {
      EnrollAllKeys(runs, source, target, records[..|records| - 1], depth);
    }
  }

  /* ---- The worklist empties ---- */

  type Enrolments = set<(WorkflowId, RecordId)>

  /** Every execution of the schedule enrols only what its run is allowed to. */
  predicate Allowed(events: seq<Event>, allowed: RunId -> Enrolments) {
    forall i :: 0 <= i < |events| ==>
      events[i].Executed? && forall r | r in events[i].records :: (events[i].target, r) in allowed(events[i].source)
  }

  /** Every enrolled run was enrolled by an allowed enrolment of its source. */
  predicate KeysAllowed(runs: Runs, allowed: RunId -> Enrolments) {
    forall i :: 0 <= i < |runs| && runs[i].key.Some? ==>
      (runs[i].key.value.target, runs[i].key.value.record) in allowed(runs[i].key.value.source)
  }

  lemma {:induction false} EnrollAllAllowed(runs: Runs, source: RunId, target: WorkflowId, records: seq<RecordId>, depth: int,
                                            allowed: RunId -> Enrolments)
    requires KeysAllowed(runs, allowed) && forall r | r in records :: (target, r) in allowed(source)
    ensures KeysAllowed(EnrollAll(runs, source, target, records, depth), allowed)
    decreases |records|
  {
    if records != [] {
      EnrollAllAllowed(runs, source, target, records[..|records| - 1], depth, allowed);
    }
  }

  lemma {:induction false} AlwaysAllowed(events: seq<Event>, allowed: RunId -> Enrolments)
    requires Allowed(events, allowed)
    ensures KeysAllowed(After([Run(0, None)], events), allowed)
    decreases |events|
  {
    if events != [] {
      var n := |events| - 1;
      AlwaysAllowed(events[..n], allowed);
      var mid, e := After([Run(0, None)], events[..n]), events[n];
      if e.source < |mid| && mid[e.source].depth < MAX_ENROLL_DEPTH {
        EnrollAllAllowed(mid, e.source, e.target, e.records, mid[e.source].depth + 1, allowed);
      }
    }
  }

  /** As keys are distinct, a run has no more children than allowed enrolments. */
  lemma {:induction false} FewChildren(runs: Runs, source: RunId, children: set<RunId>, left: Enrolments)
    requires ChainsOk(runs) && children <= Children(runs, source)
    requires forall i | i in children :: (runs[i].key.value.target, runs[i].key.value.record) in left
    ensures |children| <= |left|
    decreases |children|
  {
    if children != {} {
      var i :| i in children;
      var e := (runs[i].key.value.target, runs[i].key.value.record);
      forall j | j in children - {i} ensures (runs[j].key.value.target, runs[j].key.value.record) in left - {e} {
        assert runs[j].key != runs[i].key;
      }
      FewChildren(runs, source, children - {i}, left - {e});
    }
  }

  /** One trigger, at most b enrolments allowed to each run: however they are executed and retried, at most 1 + b + b*b runs. */
  lemma AllowedRunsBounded(events: seq<Event>, allowed: RunId -> Enrolments, b: nat)
    requires Allowed(events, allowed) && forall s :: |allowed(s)| <= b
    ensures |After([Run(0, None)], events)| <= 1 + b + b * b
  {
    var runs := After([Run(0, None)], events);
    assert RunOk([Run(0, None)], 0);
    ChainsAlwaysOk([Run(0, None)], events);
    AlwaysAllowed(events, allowed);
    forall s | 0 <= s < |runs| ensures |Children(runs, s)| <= b {
      FewChildren(runs, s, Children(runs, s), allowed(s));
    }
    AtMostOnePlusBPlusBSquared(events, b);
  }

  /** What a run's enrol steps list, in turn. */
  type Steps = seq<(WorkflowId, seq<RecordId>)>

  function StepsEvents(source: RunId, steps: Steps): (events: seq<Event>)
    ensures |events| == |steps| && forall i :: 0 <= i < |steps| ==> events[i] == Executed(source, steps[i].0, steps[i].1)
  {
    seq(|steps|, i requires 0 <= i < |steps| => Executed(source, steps[i].0, steps[i].1))
  }

  /** The runs so far, of which the first `done` have been executed; the others are the worklist. */
  datatype Work = Work(runs: Runs, done: nat) {
    predicate Empty() { done >= |runs| }
  }

  /** Execute the next run of the worklist, once. */
  function WorkOn(w: Work, steps: RunId -> Steps): Work {
    if w.Empty() then w else Work(After(w.runs, StepsEvents(w.done, steps(w.done))), w.done + 1)
  }

  /** The worklist of one triggered run after n turns. */
  function WorkAfter(steps: RunId -> Steps, n: nat): Work {
    if n == 0 then Work([Run(0, None)], 0) else WorkOn(WorkAfter(steps, n - 1), steps)
  }

  lemma {:induction false} AfterConcat(runs: Runs, a: seq<Event>, b: seq<Event>)
    ensures After(runs, a + b) == After(After(runs, a), b)
    decreases |b|
  {
    if b == [] {
      assert a + b == a;
    } else {
      assert (a + b)[..|a + b| - 1] == a + b[..|b| - 1];
      AfterConcat(runs, a, b[..|b| - 1]);
    }
  }

  /** The worklist's history is a schedule of allowed executions, one turn a run until it is empty. */
  lemma {:induction false} WorkIsSchedule(steps: RunId -> Steps, allowed: RunId -> Enrolments, n: nat) returns (events: seq<Event>)
    requires forall s, i :: 0 <= i < |steps(s)| ==> forall r | r in steps(s)[i].1 :: (steps(s)[i].0, r) in allowed(s)
    ensures Allowed(events, allowed) && WorkAfter(steps, n).runs == After([Run(0, None)], events)
    ensures WorkAfter(steps, n).done == n || WorkAfter(steps, n).Empty()
  {
    if n == 0 {
      events := [];
    } else {
      var before := WorkAfter(steps, n - 1);
      var init := WorkIsSchedule(steps, allowed, n - 1);
      if before.Empty() {
        events := init;
      } else {
        var more := StepsEvents(before.done, steps(before.done));
        AfterConcat([Run(0, None)], init, more);
        events := init + more;
      }
    }
  }

  /** Everything the first n runs enrol, in turn. */
  function WorkEvents(steps: RunId -> Steps, n: nat): seq<Event> {
    if n == 0 then [] else WorkEvents(steps, n - 1) + StepsEvents(n - 1, steps(n - 1))
  }

  /** The first runs of the worklist have been executed once each, with all their enrol steps, and nothing else has. */
  predicate WorkedOff(w: Work, steps: RunId -> Steps) {
    w.done <= |w.runs| && w.runs == After([Run(0, None)], WorkEvents(steps, w.done))
  }

  lemma TurnIsExact(w: Work, steps: RunId -> Steps)
    requires WorkedOff(w, steps)
    ensures WorkedOff(WorkOn(w, steps), steps)
  {
    if !w.Empty() {
      var more := StepsEvents(w.done, steps(w.done));
      AfterConcat([Run(0, None)], WorkEvents(steps, w.done), more);
      OneMoreDone(w.runs, more);
      assert WorkEvents(steps, w.done + 1) == WorkEvents(steps, w.done) + more;
    }
  }

  lemma {:induction false} WorkIsExact(steps: RunId -> Steps, n: nat)
    ensures WorkedOff(WorkAfter(steps, n), steps)
  {
    if n == 0 {
      assert After([Run(0, None)], WorkEvents(steps, 0)) == [Run(0, None)];
    } else {
      WorkIsExact(steps, n - 1);
      TurnIsExact(WorkAfter(steps, n - 1), steps);
    }
  }

  lemma {:induction false} OneMoreDone(runs: Runs, events: seq<Event>)
    ensures |runs| <= |After(runs, events)|
    decreases |events|
  {
    if events != [] {
      var mid, e := After(runs, events[..|events| - 1]), events[|events| - 1];
      OneMoreDone(runs, events[..|events| - 1]);
      if e.Executed? && e.source < |mid| && mid[e.source].depth < MAX_ENROLL_DEPTH {
        EnrollAllExactly(mid, e.source, e.target, e.records, mid[e.source].depth + 1);
      }
    }
  }

  /**
   One trigger, at most b enrolments to each run: the worklist is empty after at most 1 + b + b*b executions, every run
   there is having been executed exactly once.
   */
  lemma WorklistEmpties(steps: RunId -> Steps, allowed: RunId -> Enrolments, b: nat)
    requires forall s :: |allowed(s)| <= b
    requires forall s, i :: 0 <= i < |steps(s)| ==> forall r | r in steps(s)[i].1 :: (steps(s)[i].0, r) in allowed(s)
    ensures var end := WorkAfter(steps, 1 + b + b * b);
            && end.Empty() && |end.runs| <= 1 + b + b * b
            && end.runs == After([Run(0, None)], WorkEvents(steps, |end.runs|))
  {
    var n := 1 + b + b * b;
    WorkEndsBy(steps, allowed, b, n);
  }

  lemma WorkEndsBy(steps: RunId -> Steps, allowed: RunId -> Enrolments, b: nat, n: nat)
    requires n == 1 + b + b * b && forall s :: |allowed(s)| <= b
    requires forall s, i :: 0 <= i < |steps(s)| ==> forall r | r in steps(s)[i].1 :: (steps(s)[i].0, r) in allowed(s)
    ensures WorkAfter(steps, n).Empty() && |WorkAfter(steps, n).runs| <= n
    ensures WorkAfter(steps, n).runs == After([Run(0, None)], WorkEvents(steps, |WorkAfter(steps, n).runs|))
  {
    WorkIsBounded(steps, allowed, b, n);
    WorkIsExact(steps, n);
  }

  lemma WorkIsBounded(steps: RunId -> Steps, allowed: RunId -> Enrolments, b: nat, n: nat)
    requires forall s :: |allowed(s)| <= b
    requires forall s, i :: 0 <= i < |steps(s)| ==> forall r | r in steps(s)[i].1 :: (steps(s)[i].0, r) in allowed(s)
    ensures |WorkAfter(steps, n).runs| <= 1 + b + b * b && (WorkAfter(steps, n).done == n || WorkAfter(steps, n).Empty())
  {
    var events := WorkIsSchedule(steps, allowed, n);
    AllowedRunsBounded(events, allowed, b);
  }
}
