/**
 When an interleaved reconcile leaves a stale extra timer: exactly when one of its INSERTs arms a fire time that its
 record no longer has and nothing still to come will put right.
 */
module ReconcileStale {
  import opened Common
  import opened TimerTable
  import opened DateFieldTimers
  import opened ReconcileProtocol

  /** Test leads apart, the timer is at its record's present fire time, or something still to come replaces it. */
  predicate Accounted(w: World, id: RecordId, fireAt: Time) {
    || (exists r | r in w.records :: r.id == id && (r.testLead || r.fireAt == Some(fireAt)))
    || QueueOf(w, id) != []
    || exists pid | pid in w.reconciles :: w.reconciles[pid].Requested?
  }

  ghost predicate Current(w: World) {
    forall id, f :: ColonFree(id) && IsArmed(w.rows, id, f) ==> Accounted(w, id, f)
  }

  /* ---- Everything but an INSERT keeps a world current ---- */

  lemma PendingIsArmed(rows: Table, now: Time, id: RecordId, key: string) returns (f: Time)
    requires TableOk(rows, now) && ColonFree(id) && key in PendingOf(rows, id)
    ensures key == DedupeKey(id, f) && IsArmed(rows, id, f)
  {
    var r, g :| ColonFree(r) && key == DedupeKey(r, g) && rows[key].fireAt == g;
    PrefixSeparates(id, r, g);
    f := g;
  }

  lemma ArmedIsPending(rows: Table, id: RecordId, f: Time)
    requires ColonFree(id) && IsArmed(rows, id, f)
    ensures DedupeKey(id, f) in PendingOf(rows, id)
  {
    PrefixSeparates(id, id, f);
  }

  /** What a materialisation leaves pending for its own record is the saved record's fire time, unless that is a test lead. */
  lemma ApplySettles(rows: Table, id: RecordId, change: Change, now: Time, f: Time)
    requires TableOk(rows, now) && ColonFree(id) && IsArmed(Apply(rows, id, change, now), id, f)
    ensures change.Saved? && (change.rec.testLead || change.rec.fireAt == Some(f))
  {
    ArmedIsPending(Apply(rows, id, change, now), id, f);
    CancelClears(rows, id, now);
    if change.Saved? && change.rec.fireAt.Some? && change.rec.fireAt.value > now && !change.rec.testLead {
      MaterializeMoves(rows, id, change.rec.fireAt.value, now);
      KeyInjective(id, f, id, change.rec.fireAt.value);
    }
  }

  lemma ApplySparesOthers(rows: Table, id: RecordId, change: Change, now: Time, other: RecordId, f: Time)
    requires TableOk(rows, now) && ColonFree(id) && ColonFree(other) && other != id
    requires IsArmed(Apply(rows, id, change, now), other, f)
    ensures IsArmed(rows, other, f)
  {
    OwnRowsOnly(rows, match change case Removed => Deleted(id, now) case Saved(rec) => Wrote(id, rec.fireAt, rec.testLead, now));
    PrefixSeparates(id, other, f);
  }

  lemma MaterializeKeepsCurrent(w: World, id: RecordId)
    requires Sound(w) && Current(w)
    ensures Current(Next(DeleteFirst, w, MaterializeNext(id)))
  {
    var queue, next := QueueOf(w, id), Next(DeleteFirst, w, MaterializeNext(id));
    if queue != [] {
      forall q, f | ColonFree(q) && IsArmed(next.rows, q, f) ensures Accounted(next, q, f) {
        if q != id {
          ApplySparesOthers(w.rows, id, queue[0], w.now, q, f);
          assert Accounted(w, q, f);
          assert QueueOf(next, q) == QueueOf(w, q);
        } else if |queue| == 1 {
          ApplySettles(w.rows, id, queue[0], w.now, f);
          assert queue[0].rec in w.records && queue[0].rec.id == id;
        }
      }
    }
  }

  lemma WriteKeepsCurrent(w: World, rec: Record)
    requires Sound(w) && Current(w) && ColonFree(rec.id)
    ensures Current(Next(DeleteFirst, w, Write(rec)))
  {
    var next := Next(DeleteFirst, w, Write(rec));
    UpsertExactly(w.records, rec);
    forall q, f | ColonFree(q) && IsArmed(next.rows, q, f) ensures Accounted(next, q, f) {
      assert Accounted(w, q, f);
      if q == rec.id { assert QueueOf(next, q) != []; }
    }
  }

  lemma DeleteKeepsCurrent(w: World, id: RecordId)
    requires Sound(w) && Current(w) && ColonFree(id)
    ensures Current(Next(DeleteFirst, w, Delete(id)))
  {
    var next := Next(DeleteFirst, w, Delete(id));
    WithoutExactly(w.records, id);
    forall q, f | ColonFree(q) && IsArmed(next.rows, q, f) ensures Accounted(next, q, f) {
      assert Accounted(w, q, f);
      if q == id { assert QueueOf(next, q) != []; }
    }
  }

  /** These only take timers away, or move no reconcile past its DELETE while any timer is pending. */
  lemma QuietKeepsCurrent(w: World, e: Event)
    requires Current(w) && (e.Tick? || e.FireTimer? || e.Request? || e.DeletePending? || e.Scan?)
    ensures Current(Next(DeleteFirst, w, e))
  {
    var next := Next(DeleteFirst, w, e);
    forall q, f | ColonFree(q) && IsArmed(next.rows, q, f) ensures Accounted(next, q, f) {
      assert IsArmed(w.rows, q, f);
      assert Accounted(w, q, f);
      if pid :| pid in w.reconciles && w.reconciles[pid].Requested? {
        assert pid in next.reconciles && next.reconciles[pid].Requested?;
      }
    }
  }

  lemma OthersKeepCurrent(w: World, e: Event)
    requires Sound(w) && Current(w) && EventOk(w, e) && !e.Insert?
    ensures Current(Next(DeleteFirst, w, e))
  {
    match e
    case Write(rec) => WriteKeepsCurrent(w, rec);
    case Delete(id) => DeleteKeepsCurrent(w, id);
    case MaterializeNext(id) => MaterializeKeepsCurrent(w, id);
    case _ => QuietKeepsCurrent(w, e);
  }

  /* ---- An INSERT, exactly ---- */

  /**
   Every due record of the scan still has its fire time, is gone through by a materialisation still queued, or will be
   gone through by a reconcile that has not yet deleted. The caller of INSERT could look all of this up.
   */
  predicate InsertFits(w: World, pid: nat) {
    pid in w.reconciles && w.reconciles[pid].Scanned? ==>
      forall r | r in w.reconciles[pid].scan && Eligible(r, w.now) :: Accounted(w, r.id, r.fireAt.value)
  }

  /** An INSERT arms nothing but what its scan has due. */
  lemma InsertArmsOnly(rows: Table, scan: seq<Record>, now: Time, id: RecordId, f: Time)
    requires TableOk(rows, now) && RecordsOk(scan) && ColonFree(id) && IsArmed(Inserted(rows, scan, now), id, f)
    ensures IsArmed(rows, id, f) || exists r | r in scan :: Eligible(r, now) && r.id == id && r.fireAt == Some(f)
  {
    var occs, key := Occurrences(Kept(scan), now), DedupeKey(id, f);
    ArmAllRows(rows, occs);
    if key !in rows {
      var o :| o in occs && DedupeKey(o.0, o.1) == key;
      ListedIsDue(scan, now, o);
      KeyInjective(id, f, o.0, o.1);
    }
  }

  lemma ListedIsDue(scan: seq<Record>, now: Time, o: (RecordId, Time))
    requires RecordsOk(scan) && o in Occurrences(Kept(scan), now)
    ensures ColonFree(o.0) && exists r | r in scan :: Eligible(r, now) && r.id == o.0 && r.fireAt == Some(o.1)
  {
    KeptExactly(scan);
    OccurrencesExactly(Kept(scan), now);
    var r :| r in Kept(scan) && r.id == o.0 && r.fireAt == Some(o.1) && o.1 > now;
    assert r in scan && Eligible(r, now);
  }

  lemma FittingInsertKeepsCurrent(w: World, pid: nat)
    requires Sound(w) && Current(w) && pid in w.reconciles && w.reconciles[pid].Scanned? && InsertFits(w, pid)
    ensures Current(Next(DeleteFirst, w, Insert(pid)))
  {
    var scan, next := w.reconciles[pid].scan, Next(DeleteFirst, w, Insert(pid));
    forall q, f | ColonFree(q) && IsArmed(next.rows, q, f) ensures Accounted(next, q, f) {
      SameAccounts(w, pid, q, f);
      InsertArmsOnly(w.rows, scan, w.now, q, f);
    }
  }

  lemma CurrentInsertFits(w: World, pid: nat)
    requires Sound(w) && pid in w.reconciles && w.reconciles[pid].Scanned? && Current(Next(DeleteFirst, w, Insert(pid)))
    ensures InsertFits(w, pid)
  {
    var scan, next := w.reconciles[pid].scan, Next(DeleteFirst, w, Insert(pid));
    forall r | r in scan && Eligible(r, w.now) ensures Accounted(w, r.id, r.fireAt.value) {
      SameAccounts(w, pid, r.id, r.fireAt.value);
      InsertArmsOne(w.rows, scan, w.now, r);
      assert ColonFree(r.id) && Accounted(next, r.id, r.fireAt.value);
    }
  }

  /** In a sound world without stale timers an INSERT brings in none if and only if it fits. */
  lemma InsertKeepsCurrentExactly(w: World, pid: nat)
    requires Sound(w) && Current(w) && pid in w.reconciles && w.reconciles[pid].Scanned?
    ensures Current(Next(DeleteFirst, w, Insert(pid))) <==> InsertFits(w, pid)
  {
    if InsertFits(w, pid) { FittingInsertKeepsCurrent(w, pid); }
    if Current(Next(DeleteFirst, w, Insert(pid))) { CurrentInsertFits(w, pid); }
  }

  lemma SameAccounts(w: World, pid: nat, id: RecordId, f: Time)
    requires pid in w.reconciles && w.reconciles[pid].Scanned?
    ensures Accounted(Next(DeleteFirst, w, Insert(pid)), id, f) == Accounted(w, id, f)
  {
    var next := Next(DeleteFirst, w, Insert(pid));
    if q :| q in w.reconciles && w.reconciles[q].Requested? {
      assert q in next.reconciles && next.reconciles[q].Requested?;
    }
  }

  /* ---- Whole runs ---- */

  predicate InsertsFit(w: World, events: seq<Event>) {
    forall i :: 0 <= i < |events| && events[i].Insert? ==> InsertFits(Run(DeleteFirst, w, events[..i]), events[i].pid)
  }

  lemma ShorterFits(w: World, events: seq<Event>, n: nat)
    requires n < |events| && ScheduleOk(DeleteFirst, w, events) && InsertsFit(w, events)
    ensures ScheduleOk(DeleteFirst, w, events[..n]) && InsertsFit(w, events[..n])
    ensures EventOk(Run(DeleteFirst, w, events[..n]), events[n])
    ensures events[n].Insert? ==> InsertFits(Run(DeleteFirst, w, events[..n]), events[n].pid)
  {
    var init := events[..n];
    forall i | 0 <= i < n
      ensures EventOk(Run(DeleteFirst, w, init[..i]), init[i])
      ensures init[i].Insert? ==> InsertFits(Run(DeleteFirst, w, init[..i]), init[i].pid)
    {
      assert init[..i] == events[..i] && init[i] == events[i];
    }
  }

  lemma StepKeepsCurrent(w: World, e: Event)
    requires Sound(w) && Current(w) && EventOk(w, e) && (e.Insert? ==> InsertFits(w, e.pid))
    ensures Current(Next(DeleteFirst, w, e))
  {
    if !e.Insert? {
      OthersKeepCurrent(w, e);
    } else if e.pid in w.reconciles && w.reconciles[e.pid].Scanned? {
      InsertKeepsCurrentExactly(w, e.pid);
    }
  }

  lemma {:induction false} RunKeepsCurrent(w: World, events: seq<Event>)
    requires Inv(w) && Current(w) && ScheduleOk(DeleteFirst, w, events) && InsertsFit(w, events)
    ensures Inv(Run(DeleteFirst, w, events)) && Current(Run(DeleteFirst, w, events))
    decreases |events|
  {
    if events != [] {
      var n := |events| - 1;
      ShorterFits(w, events, n);
      RunKeepsCurrent(w, events[..n]);
      StepKeepsCurrent(Run(DeleteFirst, w, events[..n]), events[n]);
      StepKeeps(Run(DeleteFirst, w, events[..n]), events[n]);
    }
  }

  lemma ActivatedIsInv(w: World)
    requires Activated(w)
    ensures Inv(w) && Current(w)
  {
    var pid :| pid in w.reconciles && w.reconciles[pid].Requested?;
    assert forall r :: Unfinished(w.reconciles[pid], r);
  }

  /**
   Exactly one timer. If every INSERT of the run fits, then once everything in flight has drained each live due record
   has exactly one pending timer, at its current fire time, and an id without a record has none.
   */
  lemma ExactlyOneTimer(w: World, events: seq<Event>)
    requires Activated(w) && ScheduleOk(DeleteFirst, w, events) && InsertsFit(w, events)
    requires Drained(Run(DeleteFirst, w, events))
    ensures var end := Run(DeleteFirst, w, events);
            && (forall r | r in end.records && Eligible(r, end.now) ::
                  PendingOf(end.rows, r.id) == {DedupeKey(r.id, r.fireAt.value)})
            && (forall id | ColonFree(id) && !Has(end.records, id) :: PendingOf(end.rows, id) == {})
  {
    var end := Run(DeleteFirst, w, events);
    ActivatedIsInv(w);
    RunKeepsCurrent(w, events);
    NoTimerLost(w, events);
    forall r | r in end.records && Eligible(r, end.now) ensures PendingOf(end.rows, r.id) == {DedupeKey(r.id, r.fireAt.value)} {
      OnlyPresentPending(end, r);
    }
    forall id | ColonFree(id) && !Has(end.records, id) ensures PendingOf(end.rows, id) == {} {
      NonePending(end, id);
    }
  }

  lemma OnlyPresentPending(w: World, r: Record)
    requires Sound(w) && Current(w) && Drained(w) && r in w.records && Eligible(r, w.now)
    requires IsArmed(w.rows, r.id, r.fireAt.value)
    ensures PendingOf(w.rows, r.id) == {DedupeKey(r.id, r.fireAt.value)}
  {
    assert ColonFree(r.id);
    ArmedIsPending(w.rows, r.id, r.fireAt.value);
    forall k | k in PendingOf(w.rows, r.id) ensures k == DedupeKey(r.id, r.fireAt.value) {
      var f := PendingIsArmed(w.rows, w.now, r.id, k);
      assert Accounted(w, r.id, f);
      var q :| q in w.records && q.id == r.id && (q.testLead || q.fireAt == Some(f));
      SameIdSameRecord(w.records, q, r);
    }
  }

  lemma NonePending(w: World, id: RecordId)
    requires Sound(w) && Current(w) && Drained(w) && ColonFree(id) && !Has(w.records, id)
    ensures PendingOf(w.rows, id) == {}
  {
    if k :| k in PendingOf(w.rows, id) {
      var f := PendingIsArmed(w.rows, w.now, id, k);
    }
  }

  /* ---- A run that leaves one ---- */

  const MOVED := Record("lead", Some(200), false)

  const STALE_RUN := [DeletePending(7), Scan(7), Write(MOVED), MaterializeNext("lead"), Insert(7)]

  function Armed200(): Table { map[DedupeKey("lead", 200) := Timer(200, Pending)] }

  /** The states of the run above: a date moved after the SCAN is materialised before the INSERT. */
  function StaleState(i: nat): World
    requires i <= 5
  {
    match i
    case 0 => World(0, [LEAD], map[], map[], map[7 := Requested])
    case 1 => World(0, [LEAD], map[], map[], map[7 := Cleared])
    case 2 => World(0, [LEAD], map[], map[], map[7 := Scanned([LEAD])])
    case 3 => World(0, [MOVED], map[], map["lead" := [Saved(MOVED)]], map[7 := Scanned([LEAD])])
    case 4 => World(0, [MOVED], Armed200(), map["lead" := []], map[7 := Scanned([LEAD])])
    case 5 => World(0, [MOVED], Armed200()[DedupeKey("lead", 100) := Timer(100, Pending)], map["lead" := []], map[])
  }

  lemma StaleWrite()
    ensures Next(DeleteFirst, StaleState(2), Write(MOVED)) == StaleState(3)
  {
    assert Has([LEAD], "lead");
    assert Upsert([LEAD], MOVED) == [MOVED];
    assert QueueOf(StaleState(2), "lead") + [Saved(MOVED)] == [Saved(MOVED)];
  }

  lemma StaleMaterialize()
    ensures Next(DeleteFirst, StaleState(3), MaterializeNext("lead")) == StaleState(4)
  {
    assert Materialize(map[], "lead", 200) == Armed200();
    assert [Saved(MOVED)][1..] == [];
  }

  lemma KeysDiffer()
    ensures DedupeKey("lead", 100) != DedupeKey("lead", 200)
  {
    if DedupeKey("lead", 100) == DedupeKey("lead", 200) { KeyInjective("lead", 100, "lead", 200); }
  }

  lemma LeadIsDue()
    ensures Occurrences(Kept([LEAD]), 0) == [("lead", 100)]
  {
    assert [LEAD][..0] == [];
    assert Kept([LEAD]) == Kept([]) + [LEAD] == [LEAD];
    assert Occurrences([LEAD], 0) == Occurrences([], 0) + [("lead", 100)];
  }

  lemma ArmsOne(rows: Table, o: (RecordId, Time))
    ensures ArmAll(rows, [o]) == Arm(rows, o.0, o.1)
  {
    assert [o][..0] == [];
    assert ArmAll(rows, []) == rows;
  }

  lemma StaleInsert()
    ensures Next(DeleteFirst, StaleState(4), Insert(7)) == StaleState(5)
  {
    KeysDiffer();
    LeadIsDue();
    ArmsOne(Armed200(), ("lead", 100));
    assert map[7 := Scanned([LEAD])] - {7} == map[];
  }

  lemma StaleStep(i: nat)
    requires i < 5
    ensures Next(DeleteFirst, StaleState(i), STALE_RUN[i]) == StaleState(i + 1)
    ensures EventOk(StaleState(i), STALE_RUN[i])
  {
    match i
    case 0 =>
    case 1 =>
    case 2 => StaleWrite();
    case 3 => StaleMaterialize();
    case 4 => StaleInsert();
  }

  lemma StaleRuns()
    ensures ScheduleOk(DeleteFirst, StaleState(0), STALE_RUN) && Run(DeleteFirst, StaleState(0), STALE_RUN) == StaleState(5)
  {
    var states := seq(6, i requires 0 <= i < 6 => StaleState(i));
    assert |STALE_RUN| == 5;
    forall i | 0 <= i < 5
      ensures Next(DeleteFirst, states[i], STALE_RUN[i]) == states[i + 1] && EventOk(states[i], STALE_RUN[i])
    {
      StaleStep(i);
    }
    RunsThrough(DeleteFirst, states, STALE_RUN);
  }

  lemma TwoPending(rows: Table)
    requires rows == Armed200()[DedupeKey("lead", 100) := Timer(100, Pending)]
    ensures PendingOf(rows, "lead") == {DedupeKey("lead", 100), DedupeKey("lead", 200)} && |PendingOf(rows, "lead")| == 2
  {
    KeysDiffer();
    PrefixSeparates("lead", "lead", 100);
    PrefixSeparates("lead", "lead", 200);
  }

  /** The date moves between SCAN and INSERT: no timer is lost, but the record ends with a second one at its old date. */
  lemma MovedDateLeavesStaleTimer()
    ensures Activated(StaleState(0)) && ScheduleOk(DeleteFirst, StaleState(0), STALE_RUN)
    ensures var end := Run(DeleteFirst, StaleState(0), STALE_RUN);
            && Drained(end) && end.records == [MOVED]
            && PendingOf(end.rows, "lead") == {DedupeKey("lead", 100), DedupeKey("lead", 200)}
            && |PendingOf(end.rows, "lead")| == 2
  {
    assert StaleState(0).reconciles[7].Requested?;
    StaleRuns();
    TwoPending(StaleState(5).rows);
  }
}
