/**
 The date_field reconcile interleaved with record writes and their later materialisations (the ordering note of
 datefield_backfill.go). Each statement is one atomic step; records, timers and in-flight work are the state.
 */
module ReconcileProtocol {
  import opened Common
  import opened TimerTable
  import opened DateFieldTimers

  /** What a committed record write hands to its materialisation. */
  datatype Change = Saved(rec: Record) | Removed

  /** How far one reconcile has got. */
  datatype Phase =
    | Requested
    | Cleared
    | Scanned(scan: seq<Record>)
    | ScannedFirst(scan: seq<Record>)

  /** DELETE before SCAN is what the engine does; SCAN before DELETE is the order its note warns against. */
  datatype Order = DeleteFirst | ScanFirst

  /** `records` is the object's live rows in created order; `queues` holds each record's materialisations in commit order. */
  datatype World = World(
    now: Time,
    records: seq<Record>,
    rows: Table,
    queues: map<RecordId, seq<Change>>,
    reconciles: map<nat, Phase>)

  datatype Event =
    | Tick(to: Time)
    | Write(rec: Record)
    | Delete(id: RecordId)
    | MaterializeNext(id: RecordId)
    | FireTimer(key: string)
    | Request(pid: nat)
    | DeletePending(pid: nat)
    | Scan(pid: nat)
    | Insert(pid: nat)

  const SCAN_LIMIT := 10000

  /* ---- Record rows ---- */

  predicate Has(records: seq<Record>, id: RecordId) { exists r | r in records :: r.id == id }

  function Upsert(records: seq<Record>, rec: Record): seq<Record> {
    if Has(records, rec.id)
    then seq(|records|, i requires 0 <= i < |records| => if records[i].id == rec.id then rec else records[i])
    else records + [rec]
  }

  function Without(records: seq<Record>, id: RecordId): seq<Record> {
    if records == [] then []
    else Without(records[..|records| - 1], id) + (if records[|records| - 1].id == id then [] else [records[|records| - 1]])
  }

  /* ---- One step ---- */

  function QueueOf(w: World, id: RecordId): seq<Change> {
    if id in w.queues then w.queues[id] else []
  }

  /** The live materialisation of one committed change. */
  function Apply(rows: Table, id: RecordId, change: Change, now: Time): Table {
    match change
    case Removed => LiveStep(rows, Deleted(id, now))
    case Saved(rec) => LiveStep(rows, Wrote(id, rec.fireAt, rec.testLead, now))
  }

  function Enqueue(w: World, id: RecordId, change: Change): map<RecordId, seq<Change>> {
    w.queues[id := QueueOf(w, id) + [change]]
  }

  function Next(order: Order, w: World, e: Event): World {
    match e
    case Tick(to) => if to >= w.now then w.(now := to) else w
    case Write(rec) => w.(records := Upsert(w.records, rec), queues := Enqueue(w, rec.id, Saved(rec)))
    case Delete(id) => w.(records := Without(w.records, id), queues := Enqueue(w, id, Removed))
    case MaterializeNext(id) =>
      var queue := QueueOf(w, id);
      if queue == [] then w
      else w.(rows := Apply(w.rows, id, queue[0], w.now), queues := w.queues[id := queue[1..]])
    case FireTimer(key) =>
      if key in w.rows && w.rows[key].fireAt <= w.now then w.(rows := Fire(w.rows, key)) else w
    case Request(pid) =>
      if pid in w.reconciles then w else w.(reconciles := w.reconciles[pid := Requested])
    case DeletePending(pid) =>
      if pid !in w.reconciles then w
      else
        (match (order, w.reconciles[pid])
        case (DeleteFirst, Requested) => w.(rows := CancelAll(w.rows), reconciles := w.reconciles[pid := Cleared])
        case (ScanFirst, ScannedFirst(scan)) => w.(rows := CancelAll(w.rows), reconciles := w.reconciles[pid := Scanned(scan)])
        case _ => w)
    case Scan(pid) =>
      if pid !in w.reconciles then w
      else
        var scan := ScanOf(w.records, SCAN_LIMIT);
        (match (order, w.reconciles[pid])
        case (DeleteFirst, Cleared) => w.(reconciles := w.reconciles[pid := Scanned(scan)])
        case (ScanFirst, Requested) => w.(reconciles := w.reconciles[pid := ScannedFirst(scan)])
        case _ => w)
    case Insert(pid) =>
      if pid !in w.reconciles || !w.reconciles[pid].Scanned? then w
      else
        w.(rows := Inserted(w.rows, w.reconciles[pid].scan, w.now), reconciles := w.reconciles - {pid})
  }

  function Run(order: Order, w: World, events: seq<Event>): World {
    if events == [] then w
    else Next(order, Run(order, w, events[..|events| - 1]), events[|events| - 1])
  }

  /* ---- The claim ---- */

  /** Nothing is in flight any more. */
  predicate Drained(w: World) {
    w.reconciles == map[] && forall id | id in w.queues :: w.queues[id] == []
  }

  /** Every live record that is due a timer has one pending at its current fire time. */
  predicate AllArmed(w: World) {
    forall r | r in w.records && Eligible(r, w.now) :: IsArmed(w.rows, r.id, r.fireAt.value)
  }

  /** Record ids carry no key separator, and the object stays under the scan cap whenever it is scanned. */
  predicate EventOk(w: World, e: Event) {
    match e
    case Write(rec) => ColonFree(rec.id)
    case Delete(id) => ColonFree(id)
    case Scan(_) => |w.records| <= SCAN_LIMIT
    case _ => true
  }

  predicate ScheduleOk(order: Order, w: World, events: seq<Event>) {
    forall i :: 0 <= i < |events| ==> EventOk(Run(order, w, events[..i]), events[i])
  }

  /* ---- The invariant ---- */

  predicate Unfinished(phase: Phase, r: Record) {
    match phase
    case Requested => true
    case Cleared => true
    case Scanned(scan) => r in scan
    case ScannedFirst(_) => false
  }

  /** A due record is covered: armed already, or something still to come will arm it. */
  predicate Covered(w: World, r: Record)
    requires r.fireAt.Some?
  {
    || IsArmed(w.rows, r.id, r.fireAt.value)
    || QueueOf(w, r.id) != []
    || exists pid | pid in w.reconciles :: Unfinished(w.reconciles[pid], r)
  }

  predicate AllCovered(w: World) {
    forall r | r in w.records && Eligible(r, w.now) :: Covered(w, r)
  }

  /** The newest queued change of a record is the record as it stands. */
  predicate QueuesOk(w: World) {
    forall id | id in w.queues ::
      && ColonFree(id)
      && (w.queues[id] != [] ==>
            match w.queues[id][|w.queues[id]| - 1]
            case Saved(rec) => rec in w.records && rec.id == id
            case Removed => !Has(w.records, id))
  }

  predicate ScansOk(w: World) {
    forall pid | pid in w.reconciles && w.reconciles[pid].Scanned? :: RecordsOk(w.reconciles[pid].scan)
  }

  ghost predicate Sound(w: World) {
    RecordsOk(w.records) && TableOk(w.rows, w.now) && QueuesOk(w) && ScansOk(w)
  }

  ghost predicate Inv(w: World) { Sound(w) && AllCovered(w) }

  /* ---- Records ---- */

  lemma SameIdSameRecord(records: seq<Record>, r: Record, q: Record)
    requires RecordsOk(records) && r in records && q in records && r.id == q.id
    ensures r == q
  {
  }

  lemma UpsertExactly(records: seq<Record>, rec: Record)
    requires RecordsOk(records) && ColonFree(rec.id)
    ensures RecordsOk(Upsert(records, rec))
    ensures forall r :: r in Upsert(records, rec) <==> r == rec || (r in records && r.id != rec.id)
  {
    var next := Upsert(records, rec);
    if Has(records, rec.id) {
      var r :| r in records && r.id == rec.id;
      var i :| 0 <= i < |records| && records[i] == r;
      assert next[i] == rec;
      forall q | q in records && q.id != rec.id ensures q in next {
        var j :| 0 <= j < |records| && records[j] == q;
        assert next[j] == q;
      }
    }
  }

  lemma {:induction false} WithoutExactly(records: seq<Record>, id: RecordId)
    requires RecordsOk(records)
    ensures forall r :: r in Without(records, id) <==> r in records && r.id != id
    ensures RecordsOk(Without(records, id))
  {
    if records != [] {
      var n := |records| - 1;
      var rest := Without(records[..n], id);
      WithoutExactly(records[..n], id);
      assert records == records[..n] + [records[n]];
      forall i | 0 <= i < |rest| ensures rest[i].id != records[n].id && ColonFree(rest[i].id) {
        assert rest[i] in records[..n];
        var j :| 0 <= j < n && records[..n][j] == rest[i];
        assert records[j] == rest[i];
      }
    }
  }

  /* ---- Tables ---- */

  lemma {:induction false} ArmAllKeepsOk(rows: Table, occs: seq<(RecordId, Time)>, now: Time)
    requires TableOk(rows, now) && forall o | o in occs :: ColonFree(o.0)
    ensures TableOk(ArmAll(rows, occs), now)
  {
    if occs != [] {
      var n := |occs| - 1;
      assert occs[n] in occs && forall o | o in occs[..n] :: o in occs;
      ArmAllKeepsOk(rows, occs[..n], now);
      ArmKeepsOk(ArmAll(rows, occs[..n]), occs[n].0, occs[n].1, now);
    }
  }

  /** What a reconcile inserts for a scan. */
  function Inserted(rows: Table, scan: seq<Record>, now: Time): Table { ArmAll(rows, Occurrences(Kept(scan), now)) }

  lemma InsertKeepsOk(rows: Table, scan: seq<Record>, now: Time)
    requires TableOk(rows, now) && RecordsOk(scan)
    ensures TableOk(Inserted(rows, scan, now), now)
  {
    var occs := Occurrences(Kept(scan), now);
    KeptExactly(scan);
    OccurrencesExactly(Kept(scan), now);
    forall o | o in occs ensures ColonFree(o.0) {
      var r :| r in Kept(scan) && r.id == o.0 && r.fireAt == Some(o.1);
    }
    ArmAllKeepsOk(rows, occs, now);
  }

  lemma InsertArmsOne(rows: Table, scan: seq<Record>, now: Time, r: Record)
    requires TableOk(rows, now) && RecordsOk(scan) && r in scan && Eligible(r, now)
    ensures IsArmed(Inserted(rows, scan, now), r.id, r.fireAt.value)
  {
    var occs := Occurrences(Kept(scan), now);
    var occ := (r.id, r.fireAt.value);
    KeptExactly(scan);
    OccurrencesExactly(Kept(scan), now);
    assert HasOccurrence(Kept(scan), occ, now);
    assert occ in occs && ListsKey(occs, DedupeKey(occ.0, occ.1));
    KeyIsInserted(rows, occs, DedupeKey(occ.0, occ.1));
    InsertKeepsOk(rows, scan, now);
    RowFireAt(Inserted(rows, scan, now), now, r.id, r.fireAt.value);
  }

  lemma KeyIsInserted(rows: Table, occs: seq<(RecordId, Time)>, key: string)
    requires ListsKey(occs, key)
    ensures key in ArmAll(rows, occs)
  {
    ArmAllRows(rows, occs);
  }

  lemma InsertKeepsRow(rows: Table, scan: seq<Record>, now: Time, key: string)
    requires key in rows
    ensures key in Inserted(rows, scan, now) && Inserted(rows, scan, now)[key] == rows[key]
  {
    ArmAllRows(rows, Occurrences(Kept(scan), now));
  }

  /** Arming a scan arms each of its due records and disarms nobody. */
  lemma InsertArms(rows: Table, scan: seq<Record>, now: Time)
    requires TableOk(rows, now) && RecordsOk(scan)
    ensures TableOk(Inserted(rows, scan, now), now)
    ensures forall r | r in scan && Eligible(r, now) :: IsArmed(Inserted(rows, scan, now), r.id, r.fireAt.value)
    ensures forall id, f :: IsArmed(rows, id, f) ==> IsArmed(Inserted(rows, scan, now), id, f)
  {
    InsertKeepsOk(rows, scan, now);
    forall r | r in scan && Eligible(r, now) ensures IsArmed(Inserted(rows, scan, now), r.id, r.fireAt.value) {
      InsertArmsOne(rows, scan, now, r);
    }
    forall id, f | IsArmed(rows, id, f) ensures IsArmed(Inserted(rows, scan, now), id, f) {
      InsertKeepsRow(rows, scan, now, DedupeKey(id, f));
    }
  }

  /** One materialisation: a sound table stays sound, other records' timers stay, and a due saved record is armed. */
  lemma ApplyArms(rows: Table, id: RecordId, change: Change, now: Time)
    requires TableOk(rows, now) && ColonFree(id)
    ensures var next := Apply(rows, id, change, now);
            && TableOk(next, now)
            && (change.Saved? && Eligible(change.rec, now) ==> IsArmed(next, id, change.rec.fireAt.value))
            && (forall other, f :: ColonFree(other) && other != id && IsArmed(rows, other, f) ==> IsArmed(next, other, f))
  {
    var next := Apply(rows, id, change, now);
    var e := match change case Removed => Deleted(id, now) case Saved(rec) => Wrote(id, rec.fireAt, rec.testLead, now);
    OwnRowsOnly(rows, e);
    if change.Saved? && change.rec.fireAt.Some? && change.rec.fireAt.value > now {
      if !change.rec.testLead {
        MaterializeMoves(rows, id, change.rec.fireAt.value, now);
        assert DedupeKey(id, change.rec.fireAt.value) in PendingOf(next, id);
      }
    } else {
      CancelClears(rows, id, now);
    }
    forall other, f | ColonFree(other) && other != id && IsArmed(rows, other, f) ensures IsArmed(next, other, f) {
      PrefixSeparates(id, other, f);
    }
  }

  /* ---- Every step keeps the invariant ---- */

  lemma TickKeeps(w: World, to: Time)
    requires Inv(w)
    ensures Inv(Next(DeleteFirst, w, Tick(to)))
  {
    var next := Next(DeleteFirst, w, Tick(to));
    LaterStillOk(w.rows, w.now, next.now);
    forall r | r in next.records && Eligible(r, next.now) ensures Covered(next, r) {
      assert Covered(w, r);
    }
  }

  lemma WriteKeeps(w: World, rec: Record)
    requires Inv(w) && ColonFree(rec.id)
    ensures Inv(Next(DeleteFirst, w, Write(rec)))
  {
    var next := Next(DeleteFirst, w, Write(rec));
    UpsertExactly(w.records, rec);
    forall id | id in next.queues && id != rec.id && next.queues[id] != []
      ensures match next.queues[id][|next.queues[id]| - 1]
              case Saved(q) => q in next.records && q.id == id
              case Removed => !Has(next.records, id)
    {
      assert next.queues[id] == w.queues[id];
    }
    forall r | r in next.records && Eligible(r, next.now) ensures Covered(next, r) {
      if r.id != rec.id { CoveredElsewhere(w, next, r); } else { assert QueueOf(next, r.id) != []; }
    }
  }

  lemma DeleteKeeps(w: World, id: RecordId)
    requires Inv(w) && ColonFree(id)
    ensures Inv(Next(DeleteFirst, w, Delete(id)))
  {
    var next := Next(DeleteFirst, w, Delete(id));
    WithoutExactly(w.records, id);
    forall q | q in next.queues && q != id && next.queues[q] != []
      ensures match next.queues[q][|next.queues[q]| - 1]
              case Saved(rec) => rec in next.records && rec.id == q
              case Removed => !Has(next.records, q)
    {
      assert next.queues[q] == w.queues[q];
    }
    forall r | r in next.records && Eligible(r, next.now) ensures Covered(next, r) {
      CoveredElsewhere(w, next, r);
    }
  }

  /** A write to another record leaves this one's cover in place. */
  lemma CoveredElsewhere(w: World, next: World, r: Record)
    requires r.fireAt.Some? && Covered(w, r)
    requires next.rows == w.rows && next.reconciles == w.reconciles && QueueOf(next, r.id) == QueueOf(w, r.id)
    ensures Covered(next, r)
  {
  }

  lemma MaterializeKeeps(w: World, id: RecordId)
    requires Inv(w)
    ensures Inv(Next(DeleteFirst, w, MaterializeNext(id)))
  {
    var queue := QueueOf(w, id);
    if queue != [] {
      var next := Next(DeleteFirst, w, MaterializeNext(id));
      ApplyArms(w.rows, id, queue[0], w.now);
      forall q | q in next.queues && next.queues[q] != []
        ensures next.queues[q][|next.queues[q]| - 1] == w.queues[q][|w.queues[q]| - 1]
      {
      }
      forall r | r in next.records && Eligible(r, next.now) ensures Covered(next, r) {
        assert Covered(w, r);
        if r.id == id {
          if |queue| == 1 { NewestIsCurrent(w, r); }
        } else {
          assert QueueOf(next, r.id) == QueueOf(w, r.id);
          assert ColonFree(r.id);
        }
      }
    }
  }

  lemma NewestIsCurrent(w: World, r: Record)
    requires Sound(w) && r in w.records && QueueOf(w, r.id) != []
    ensures QueueOf(w, r.id)[|QueueOf(w, r.id)| - 1] == Saved(r)
  {
    assert Has(w.records, r.id);
    var last := QueueOf(w, r.id)[|QueueOf(w, r.id)| - 1];
    if last.Saved? { SameIdSameRecord(w.records, last.rec, r); }
  }

  /** Firing a due timer leaves every timer still ahead. */
  lemma FireSparesDue(rows: Table, now: Time, key: string, id: RecordId, fireAt: Time)
    requires TableOk(rows, now) && ColonFree(id) && key in rows && rows[key].fireAt <= now
    requires fireAt > now && IsArmed(rows, id, fireAt)
    ensures IsArmed(Fire(rows, key), id, fireAt)
  {
    RowFireAt(rows, now, id, fireAt);
  }

  lemma FireKeepsTable(rows: Table, now: Time, key: string)
    requires TableOk(rows, now) && key in rows && rows[key].fireAt <= now
    ensures TableOk(Fire(rows, key), now)
  {
  }

  lemma SoundWithRows(w: World, rows: Table)
    requires Sound(w) && TableOk(rows, w.now)
    ensures Sound(w.(rows := rows))
  {
  }

  lemma FireKeepsCovered(w: World, key: string, r: Record)
    requires TableOk(w.rows, w.now) && ColonFree(r.id) && key in w.rows && w.rows[key].fireAt <= w.now
    requires Eligible(r, w.now) && Covered(w, r)
    ensures Covered(w.(rows := Fire(w.rows, key)), r)
  {
    if IsArmed(w.rows, r.id, r.fireAt.value) {
      FireSparesDue(w.rows, w.now, key, r.id, r.fireAt.value);
    }
  }

  lemma FireKeeps(w: World, key: string)
    requires Inv(w)
    ensures Inv(Next(DeleteFirst, w, FireTimer(key)))
  {
    var next := Next(DeleteFirst, w, FireTimer(key));
    assert Sound(w) && AllCovered(w);
    if key in w.rows && w.rows[key].fireAt <= w.now {
      FireKeepsTable(w.rows, w.now, key);
      SoundWithRows(w, Fire(w.rows, key));
      forall r | r in w.records && Eligible(r, w.now) ensures Covered(next, r) {
        assert Covered(w, r) && ColonFree(r.id);
        FireKeepsCovered(w, key, r);
      }
    }
  }

  lemma RequestKeeps(w: World, pid: nat)
    requires Inv(w)
    ensures Inv(Next(DeleteFirst, w, Request(pid)))
  {
    var next := Next(DeleteFirst, w, Request(pid));
    forall r | r in next.records && Eligible(r, next.now) ensures Covered(next, r) {
      assert Covered(w, r);
      PhaseKept(w, next, pid, r);
    }
  }

  /** A cover by another reconcile survives a change to this one's phase. */
  lemma PhaseKept(w: World, next: World, pid: nat, r: Record)
    requires forall q | q in w.reconciles && q != pid :: q in next.reconciles && next.reconciles[q] == w.reconciles[q]
    requires pid in w.reconciles ==> pid in next.reconciles && (Unfinished(w.reconciles[pid], r) ==> Unfinished(next.reconciles[pid], r))
    ensures (exists q | q in w.reconciles :: Unfinished(w.reconciles[q], r))
        ==> exists q | q in next.reconciles :: Unfinished(next.reconciles[q], r)
  {
    if q :| q in w.reconciles && Unfinished(w.reconciles[q], r) {
      assert Unfinished(next.reconciles[q], r);
    }
  }

  /** The DELETE wipes timers, but the reconcile that issued it has yet to scan: it covers everybody. */
  lemma DeletePendingKeeps(w: World, pid: nat)
    requires Inv(w)
    ensures Inv(Next(DeleteFirst, w, DeletePending(pid)))
  {
    var next := Next(DeleteFirst, w, DeletePending(pid));
    if pid in w.reconciles && w.reconciles[pid].Requested? {
      assert next.reconciles[pid] == Cleared;
      forall r | r in next.records && Eligible(r, next.now) ensures Covered(next, r) {
        assert Unfinished(next.reconciles[pid], r);
      }
    }
  }

  /** The SCAN returns every live record, so the reconcile still covers them all. */
  lemma ScanKeeps(w: World, pid: nat)
    requires Inv(w) && |w.records| <= SCAN_LIMIT
    ensures Inv(Next(DeleteFirst, w, Scan(pid)))
  {
    var next := Next(DeleteFirst, w, Scan(pid));
    if pid in w.reconciles && w.reconciles[pid].Cleared? {
      assert next.reconciles[pid] == Scanned(w.records);
      forall r | r in next.records && Eligible(r, next.now) ensures Covered(next, r) {
        assert Unfinished(next.reconciles[pid], r);
      }
    }
  }

  /** The INSERT arms what was scanned; a record changed since then is covered by its own queue or another reconcile. */
  lemma InsertKeeps(w: World, pid: nat)
    requires Inv(w)
    ensures Inv(Next(DeleteFirst, w, Insert(pid)))
  {
    var next := Next(DeleteFirst, w, Insert(pid));
    if pid in w.reconciles && w.reconciles[pid].Scanned? {
      InsertArms(w.rows, w.reconciles[pid].scan, w.now);
      forall r | r in next.records && Eligible(r, next.now) ensures Covered(next, r) {
        assert Covered(w, r);
        if q :| q in w.reconciles && Unfinished(w.reconciles[q], r) {
          if q != pid { assert Unfinished(next.reconciles[q], r); }
        }
      }
    }
  }

  lemma StepKeeps(w: World, e: Event)
    requires Inv(w) && EventOk(w, e)
    ensures Inv(Next(DeleteFirst, w, e))
  {
    match e
    case Tick(to) => TickKeeps(w, to);
    case Write(rec) => WriteKeeps(w, rec);
    case Delete(id) => DeleteKeeps(w, id);
    case MaterializeNext(id) => MaterializeKeeps(w, id);
    case FireTimer(key) => FireKeeps(w, key);
    case Request(pid) => RequestKeeps(w, pid);
    case DeletePending(pid) => DeletePendingKeeps(w, pid);
    case Scan(pid) => ScanKeeps(w, pid);
    case Insert(pid) => InsertKeeps(w, pid);
  }

  lemma {:induction false} RunKeeps(w: World, events: seq<Event>)
    requires Inv(w) && ScheduleOk(DeleteFirst, w, events)
    ensures Inv(Run(DeleteFirst, w, events))
    decreases |events|
  {
    if events != [] {
      var n := |events| - 1;
      forall i | 0 <= i < n ensures EventOk(Run(DeleteFirst, w, events[..n][..i]), events[..n][i]) {
        assert events[..n][..i] == events[..i];
      }
      RunKeeps(w, events[..n]);
      StepKeeps(Run(DeleteFirst, w, events[..n]), events[n]);
    }
  }

  /* ---- Main results ---- */

  /** An activated workflow: a reconcile has been requested and nothing is assumed about earlier timers or records. */
  ghost predicate Activated(w: World) {
    Sound(w) && exists pid | pid in w.reconciles :: w.reconciles[pid].Requested?
  }

  /**
   DELETE, SCAN, INSERT lose no timer. However any number of reconciles interleave with record writes, deletes,
   materialisations, firings and the clock, once everything in flight has drained every live due record is armed
   at its current fire time.
   */
  lemma NoTimerLost(w: World, events: seq<Event>)
    requires Activated(w) && ScheduleOk(DeleteFirst, w, events)
    requires Drained(Run(DeleteFirst, w, events))
    ensures AllArmed(Run(DeleteFirst, w, events))
  {
    var pid :| pid in w.reconciles && w.reconciles[pid].Requested?;
    assert forall r :: Unfinished(w.reconciles[pid], r);
    RunKeeps(w, events);
    var end := Run(DeleteFirst, w, events);
    forall r | r in end.records && Eligible(r, end.now) ensures IsArmed(end.rows, r.id, r.fireAt.value) {
      assert Covered(end, r);
    }
  }

  /* ---- The reverse order ---- */

  const LEAD := Record("lead", Some(100), false)

  const SCAN_FIRST_RUN := [Scan(7), Write(LEAD), MaterializeNext("lead"), DeletePending(7), Insert(7)]

  /** The states of the run above, from an activated workflow without records or timers. */
  function LosingState(i: nat): World
    requires i <= 5
  {
    match i
    case 0 => World(0, [], map[], map[], map[7 := Requested])
    case 1 => World(0, [], map[], map[], map[7 := ScannedFirst([])])
    case 2 => World(0, [LEAD], map[], map["lead" := [Saved(LEAD)]], map[7 := ScannedFirst([])])
    case 3 => World(0, [LEAD], map[DedupeKey("lead", 100) := Timer(100, Pending)], map["lead" := []], map[7 := ScannedFirst([])])
    case 4 => World(0, [LEAD], map[], map["lead" := []], map[7 := Scanned([])])
    case 5 => World(0, [LEAD], map[], map["lead" := []], map[])
  }

  lemma LosingWrite()
    ensures Next(ScanFirst, LosingState(1), Write(LEAD)) == LosingState(2)
  {
    assert Upsert([], LEAD) == [LEAD];
    assert QueueOf(LosingState(1), "lead") + [Saved(LEAD)] == [Saved(LEAD)];
  }

  lemma LosingMaterialize()
    ensures Next(ScanFirst, LosingState(2), MaterializeNext("lead")) == LosingState(3)
  {
    assert Materialize(map[], "lead", 100) == map[DedupeKey("lead", 100) := Timer(100, Pending)];
    assert [Saved(LEAD)][1..] == [];
  }

  lemma LosingInsert()
    ensures Next(ScanFirst, LosingState(4), Insert(7)) == LosingState(5)
  {
    assert map[7 := Scanned([])] - {7} == map[];
  }

  lemma LosingStep(i: nat)
    requires i < 5
    ensures Next(ScanFirst, LosingState(i), SCAN_FIRST_RUN[i]) == LosingState(i + 1)
    ensures EventOk(LosingState(i), SCAN_FIRST_RUN[i])
  {
    match i
    case 0 =>
    case 1 => LosingWrite();
    case 2 => LosingMaterialize();
    case 3 =>
    case 4 => LosingInsert();
  }

  lemma LosingEnd()
    ensures Drained(LosingState(5)) && !AllArmed(LosingState(5))
  {
    assert LEAD in LosingState(5).records && Eligible(LEAD, 0);
  }

  /** Scanning first does lose a timer: a lead saved and materialised after the SCAN is wiped by the DELETE and not re-armed. */
  lemma ScanFirstLosesTimer()
    ensures Activated(LosingState(0)) && ScheduleOk(ScanFirst, LosingState(0), SCAN_FIRST_RUN)
    ensures Drained(Run(ScanFirst, LosingState(0), SCAN_FIRST_RUN))
    ensures !AllArmed(Run(ScanFirst, LosingState(0), SCAN_FIRST_RUN))
  {
    assert LosingState(0).reconciles[7].Requested?;
    var states := seq(6, i requires 0 <= i < 6 => LosingState(i));
    forall i | 0 <= i < 5
      ensures Next(ScanFirst, states[i], SCAN_FIRST_RUN[i]) == states[i + 1] && EventOk(states[i], SCAN_FIRST_RUN[i])
    {
      LosingStep(i);
    }
    assert |SCAN_FIRST_RUN| == 5;
    RunsThrough(ScanFirst, states, SCAN_FIRST_RUN);
    LosingEnd();
  }

  /** A run spelled out state by state. */
  lemma {:induction false} RunsThrough(order: Order, states: seq<World>, events: seq<Event>)
    requires |states| == |events| + 1
    requires forall i :: 0 <= i < |events| ==> Next(order, states[i], events[i]) == states[i + 1] && EventOk(states[i], events[i])
    ensures Run(order, states[0], events) == states[|events|]
    ensures ScheduleOk(order, states[0], events)
    decreases |events|
  {
    if events != [] {
      var n := |events| - 1;
      RunsThrough(order, states[..n + 1], events[..n]);
      forall i | 0 <= i < |events| ensures EventOk(Run(order, states[0], events[..i]), events[i]) {
        if i < n {
          assert events[..n][..i] == events[..i] && events[..n][i] == events[i];
        } else {
          assert events[..i] == events[..n];
        }
      }
    }
  }
}
