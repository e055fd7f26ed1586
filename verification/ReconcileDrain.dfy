/** What is in flight around a reconcile can always drain, and then every due record is armed. */
module ReconcileDrain {
  import opened Common
  import opened TimerTable
  import opened DateFieldTimers
  import opened ReconcileProtocol

  lemma {:induction false} RunConcat(w: World, a: seq<Event>, b: seq<Event>)
    ensures Run(DeleteFirst, w, a + b) == Run(DeleteFirst, Run(DeleteFirst, w, a), b)
    decreases |b|
  {
    if b == [] {
      assert a + b == a;
    } else {
      assert (a + b)[..|a + b| - 1] == a + b[..|b| - 1];
      RunConcat(w, a, b[..|b| - 1]);
    }
  }

  lemma ScheduleConcat(w: World, a: seq<Event>, b: seq<Event>)
    requires ScheduleOk(DeleteFirst, w, a) && ScheduleOk(DeleteFirst, Run(DeleteFirst, w, a), b)
    ensures ScheduleOk(DeleteFirst, w, a + b)
  {
    forall i | 0 <= i < |a + b| ensures EventOk(Run(DeleteFirst, w, (a + b)[..i]), (a + b)[i]) {
      if i < |a| {
        assert (a + b)[..i] == a[..i];
      } else {
        assert (a + b)[..i] == a + b[..i - |a|];
        RunConcat(w, a, b[..i - |a|]);
      }
    }
  }

  /** A permitted first step, then a permitted schedule. */
  lemma OneThen(w: World, e: Event, later: seq<Event>)
    requires EventOk(w, e) && ScheduleOk(DeleteFirst, Next(DeleteFirst, w, e), later)
    ensures ScheduleOk(DeleteFirst, w, [e] + later)
    ensures Run(DeleteFirst, w, [e] + later) == Run(DeleteFirst, Next(DeleteFirst, w, e), later)
  {
    assert [e][..0] == [] && Run(DeleteFirst, w, [e]) == Next(DeleteFirst, w, e);
    ScheduleConcat(w, [e], later);
    RunConcat(w, [e], later);
  }

  /** No reconcile of the world scanned before it deleted. */
  predicate NoneScannedFirst(w: World) {
    forall pid | pid in w.reconciles :: !w.reconciles[pid].ScannedFirst?
  }

  /** What draining never touches. */
  predicate SameGround(w: World, next: World) {
    next.now == w.now && next.records == w.records
  }

  /** How far a reconcile has to go. */
  function StatementsLeft(phase: Phase): nat {
    match phase
    case Requested => 3
    case Cleared => 2
    case Scanned(_) => 1
    case ScannedFirst(_) => 0
  }

  /** The statement a reconcile issues next. */
  function NextStatement(w: World, pid: nat): Event
    requires pid in w.reconciles
  {
    match w.reconciles[pid]
    case Requested => DeletePending(pid)
    case Cleared => Scan(pid)
    case _ => Insert(pid)
  }

  /** Each statement takes its reconcile one step on, to its end at the third, and leaves the others where they are. */
  lemma StatementAdvances(w: World, pid: nat)
    requires pid in w.reconciles && !w.reconciles[pid].ScannedFirst?
    ensures var next := Next(DeleteFirst, w, NextStatement(w, pid));
            && SameGround(w, next) && next.queues == w.queues
            && next.reconciles - {pid} == w.reconciles - {pid}
            && (if w.reconciles[pid].Scanned? then pid !in next.reconciles
                else pid in next.reconciles && !next.reconciles[pid].ScannedFirst?
                     && StatementsLeft(next.reconciles[pid]) == StatementsLeft(w.reconciles[pid]) - 1)
  {
  }

  /** One reconcile runs to its end. */
  lemma {:induction false} FinishReconcile(w: World, pid: nat) returns (events: seq<Event>)
    requires NoneScannedFirst(w) && pid in w.reconciles && |w.records| <= SCAN_LIMIT
    ensures ScheduleOk(DeleteFirst, w, events)
    ensures var next := Run(DeleteFirst, w, events);
            SameGround(w, next) && next.queues == w.queues && next.reconciles == w.reconciles - {pid}
    decreases StatementsLeft(w.reconciles[pid])
  {
    var e := NextStatement(w, pid);
    var next := Next(DeleteFirst, w, e);
    StatementAdvances(w, pid);
    if w.reconciles[pid].Scanned? {
      assert next.reconciles == next.reconciles - {pid};
      OneThen(w, e, []);
      events := [e] + [];
    } else {
      forall q | q in next.reconciles ensures !next.reconciles[q].ScannedFirst? {
        if q != pid { assert q in next.reconciles - {pid}; }
      }
      var rest := FinishReconcile(next, pid);
      OneThen(w, e, rest);
      events := [e] + rest;
    }
  }

  lemma {:induction false} FinishReconciles(w: World) returns (events: seq<Event>)
    requires NoneScannedFirst(w) && |w.records| <= SCAN_LIMIT
    ensures ScheduleOk(DeleteFirst, w, events)
    ensures var next := Run(DeleteFirst, w, events);
            SameGround(w, next) && next.queues == w.queues && next.reconciles == map[]
    decreases w.reconciles.Keys
  {
    if w.reconciles == map[] {
      events := [];
    } else {
      assert w.reconciles.Keys != {};
      var pid :| pid in w.reconciles;
      var first := FinishReconcile(w, pid);
      var mid := Run(DeleteFirst, w, first);
      assert mid.reconciles.Keys == w.reconciles.Keys - {pid};
      var rest := FinishReconciles(mid);
      ScheduleConcat(w, first, rest);
      RunConcat(w, first, rest);
      events := first + rest;
    }
  }

  /** One record's materialisations run to the end of its queue. */
  lemma {:induction false} FinishQueue(w: World, id: RecordId) returns (events: seq<Event>)
    requires id in w.queues
    ensures ScheduleOk(DeleteFirst, w, events)
    ensures var next := Run(DeleteFirst, w, events);
            SameGround(w, next) && next.reconciles == w.reconciles && next.queues == w.queues[id := []]
    decreases |w.queues[id]|
  {
    if w.queues[id] == [] {
      events := [];
      assert w.queues[id := []] == w.queues;
    } else {
      var e := MaterializeNext(id);
      var next := Next(DeleteFirst, w, e);
      assert next.queues[id] == w.queues[id][1..];
      var rest := FinishQueue(next, id);
      OneThen(w, e, rest);
      events := [e] + rest;
    }
  }

  lemma {:induction false} FinishQueues(w: World, ids: set<RecordId>) returns (events: seq<Event>)
    requires ids <= w.queues.Keys && forall id | id in w.queues && id !in ids :: w.queues[id] == []
    ensures ScheduleOk(DeleteFirst, w, events)
    ensures var next := Run(DeleteFirst, w, events);
            SameGround(w, next) && next.reconciles == w.reconciles && forall id | id in next.queues :: next.queues[id] == []
    decreases ids
  {
    if ids == {} {
      events := [];
    } else {
      var id :| id in ids;
      var first := FinishQueue(w, id);
      var mid := Run(DeleteFirst, w, first);
      var rest := FinishQueues(mid, ids - {id});
      ScheduleConcat(w, first, rest);
      RunConcat(w, first, rest);
      events := first + rest;
    }
  }

  /**
   From any activated world whatever is in flight can drain, without a write, a firing or a tick of the clock; and then
   every record due a timer has one at its current fire time.
   */
  lemma CanDrain(w: World) returns (events: seq<Event>)
    requires Activated(w) && NoneScannedFirst(w) && |w.records| <= SCAN_LIMIT
    ensures ScheduleOk(DeleteFirst, w, events)
    ensures var end := Run(DeleteFirst, w, events);
            SameGround(w, end) && Drained(end) && AllArmed(end)
  {
    var first := FinishReconciles(w);
    var mid := Run(DeleteFirst, w, first);
    var rest := FinishQueues(mid, mid.queues.Keys);
    ScheduleConcat(w, first, rest);
    RunConcat(w, first, rest);
    events := first + rest;
    NoTimerLost(w, events);
  }

  /** A timer fires when its time has come and not before; firing marks it fired and touches nothing else. */
  lemma FiringExactly(w: World, key: string)
    requires key in w.rows
    ensures var next := Next(DeleteFirst, w, FireTimer(key));
            if w.rows[key].fireAt <= w.now then
              next == w.(rows := next.rows) && next.rows == w.rows[key := Timer(w.rows[key].fireAt, Fired)]
            else next == w
  {
  }
}
