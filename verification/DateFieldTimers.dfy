/** The whole-workflow reconcile and the per-record live path, without interleaving (datefield_backfill.go, datefield_timers.go). */
module DateFieldTimers {
  import opened Common
  import opened TimerTable

  /** A stored record: the moment its date resolves to under the current config, if any, and whether it is a test lead. */
  datatype Record = Record(id: RecordId, fireAt: Option<Time>, testLead: bool)

  predicate Eligible(rec: Record, now: Time) { !rec.testLead && rec.fireAt.Some? && rec.fireAt.value > now }

  /** One record one row, and ids free of the key separator (they are UUIDs). */
  predicate RecordsOk(records: seq<Record>) {
    && (forall i :: 0 <= i < |records| ==> ColonFree(records[i].id))
    && (forall i, j :: 0 <= i < j < |records| ==> records[i].id != records[j].id)
  }

  datatype Stats = Stats(scanned: nat, armed: nat, excludedTestLeads: nat, skippedNoFutureDate: nat, truncated: nat)

  /* ---- The reconcile, as functions ---- */

  /** The scan returns the oldest records, up to the cap; `records` is in created order. */
  function ScanOf(records: seq<Record>, limit: nat): seq<Record> {
    if |records| <= limit then records else records[..limit]
  }

  function Kept(scan: seq<Record>): seq<Record> {
    if scan == [] then []
    else Kept(scan[..|scan| - 1]) + (if scan[|scan| - 1].testLead then [] else [scan[|scan| - 1]])
  }

  /** The (record, fire time) pairs that still lie ahead. */
  function Occurrences(kept: seq<Record>, now: Time): seq<(RecordId, Time)> {
    if kept == [] then []
    else
      var last := kept[|kept| - 1];
      Occurrences(kept[..|kept| - 1], now)
      + (if last.fireAt.Some? && last.fireAt.value > now then [(last.id, last.fireAt.value)] else [])
  }

  function ArmAll(rows: Table, occs: seq<(RecordId, Time)>): Table {
    if occs == [] then rows
    else Arm(ArmAll(rows, occs[..|occs| - 1]), occs[|occs| - 1].0, occs[|occs| - 1].1)
  }

  /** swapDateFieldTimers: drop every pending timer, then arm what the scan implies. */
  function Reconciled(rows: Table, active: bool, records: seq<Record>, limit: nat, now: Time): Table {
    if !active then CancelAll(rows)
    else ArmAll(CancelAll(rows), Occurrences(Kept(ScanOf(records, limit)), now))
  }

  /* ---- The live path, as a function ---- */

  /** A record write as its event reports it, or the scheduler firing a due occurrence. */
  datatype LiveEvent =
    | Wrote(record: RecordId, fireAt: Option<Time>, silenced: bool, now: Time)
    | Deleted(record: RecordId, now: Time)
    | FiredDue(record: RecordId, due: Time, now: Time)

  function LiveStep(rows: Table, e: LiveEvent): Table {
    match e
    case Deleted(record, _) => CancelRecord(rows, record)
    case Wrote(record, fireAt, silenced, now) =>
      if fireAt.None? || fireAt.value <= now then CancelRecord(rows, record)
      else if silenced then rows
      else Materialize(rows, record, fireAt.value)
    case FiredDue(record, due, now) =>
      if due <= now && IsArmed(rows, record, due) then Fire(rows, DedupeKey(record, due)) else rows
  }

  /* ---- The code ---- */

  class TimerStore {
    /** The date_field timers of one workflow. */
    var rows: Table

    constructor ()
      ensures rows == map[]
    {
      rows := map[];
    }

    /** swapDateFieldTimers, with its counters. `records` is what the object holds, oldest first. */
    method Swap(active: bool, records: seq<Record>, limit: nat, now: Time) returns (stats: Stats)
      modifies this
      ensures rows == Reconciled(old(rows), active, records, limit, now)
      ensures !active ==> stats == Stats(0, 0, 0, 0, 0)
      ensures active ==>
        var scan := ScanOf(records, limit);
        var kept := Kept(scan);
        && stats.scanned == |scan|
        && stats.excludedTestLeads == |scan| - |kept|
        && stats.skippedNoFutureDate == |kept| - |Occurrences(kept, now)|
        && stats.armed == |rows| - |CancelAll(old(rows))|
        && stats.scanned + stats.truncated == |records|
    {
      rows := CancelAll(rows);
      if !active { return Stats(0, 0, 0, 0, 0); }
      var scan := ScanOf(records, limit);
      var truncated := BackfillTruncation(|records|, |scan|, limit);
      var kept, excluded := DropTestLeads(scan);
      var timers, skipped := BuildTimers(kept, now);
      var armed := InsertTimers(timers);
      stats := Stats(|scan|, armed, excluded, skipped, truncated);
    }

    /** backfillTruncation: the exact count of records the cap left unexamined, asked only when the scan came back full. */
    static method BackfillTruncation(total: nat, scanned: nat, limit: nat) returns (truncated: nat)
      ensures truncated == if scanned >= limit && total > scanned then total - scanned else 0
    {
      if scanned < limit { return 0; }
      if total <= scanned { return 0; }
      return total - scanned;
    }

    /** The contact scan's filter. */
    static method DropTestLeads(scan: seq<Record>) returns (kept: seq<Record>, excluded: nat)
      ensures kept == Kept(scan) && excluded == |scan| - |kept|
    {
      kept, excluded := [], 0;
      for i := 0 to |scan|
        invariant kept == Kept(scan[..i]) && excluded == i - |kept|
      {
        assert scan[..i + 1][..i] == scan[..i];
        if scan[i].testLead {
          excluded := excluded + 1;
        } else {
          kept := kept + [scan[i]];
        }
      }
      assert scan[..|scan|] == scan;
    }

    static method BuildTimers(kept: seq<Record>, now: Time) returns (timers: seq<(RecordId, Time)>, skipped: nat)
      ensures timers == Occurrences(kept, now) && skipped == |kept| - |timers|
    {
      timers, skipped := [], 0;
      for i := 0 to |kept|
        invariant timers == Occurrences(kept[..i], now) && skipped == i - |timers|
      {
        assert kept[..i + 1][..i] == kept[..i];
        if kept[i].fireAt.None? || !(kept[i].fireAt.value > now) {
          skipped := skipped + 1;
        } else {
          timers := timers + [(kept[i].id, kept[i].fireAt.value)];
        }
      }
      assert kept[..|kept|] == kept;
    }

    /** The insert-if-absent batch; counts the rows that landed. */
    method InsertTimers(timers: seq<(RecordId, Time)>) returns (armed: nat)
      modifies this
      ensures rows == ArmAll(old(rows), timers) && armed == |rows| - |old(rows)|
    {
      armed := 0;
      for i := 0 to |timers|
        invariant rows == ArmAll(old(rows), timers[..i]) && armed == |rows| - |old(rows)|
      {
        assert timers[..i + 1][..i] == timers[..i];
        var key := DedupeKey(timers[i].0, timers[i].1);
        if key !in rows {
          rows := rows[key := Timer(timers[i].1, Pending)];
          armed := armed + 1;
        }
      }
      assert timers[..|timers|] == timers;
    }

    /** materializeDateFieldTimers for this workflow and one record event. */
    method HandleWrite(record: RecordId, deleted: bool, fireAt: Option<Time>, silenced: bool, now: Time)
      modifies this
      ensures rows == LiveStep(old(rows), if deleted then Deleted(record, now) else Wrote(record, fireAt, silenced, now))
    {
      if deleted {
        rows := CancelRecord(rows, record);
        return;
      }
      if fireAt.None? || !(fireAt.value > now) {
        rows := CancelRecord(rows, record);
        return;
      }
      if silenced { return; }
      rows := Materialize(rows, record, fireAt.value);
    }
  }

  /* ---- What a reconcile leaves ---- */

  /** The cap keeps the oldest: as many records as it allows, and none left out that is older than one scanned. */
  lemma ScanIsOldest(records: seq<Record>, limit: nat, created: Record -> Time)
    requires forall i, j :: 0 <= i < j < |records| ==> created(records[i]) <= created(records[j])
    ensures |ScanOf(records, limit)| == if |records| <= limit then |records| else limit
    ensures forall i :: 0 <= i < |ScanOf(records, limit)| ==> ScanOf(records, limit)[i] == records[i]
    ensures forall i, j :: 0 <= i < |ScanOf(records, limit)| <= j < |records| ==> created(ScanOf(records, limit)[i]) <= created(records[j])
  {
    var scan := ScanOf(records, limit);
    forall i, j | 0 <= i < |scan| <= j < |records| ensures created(scan[i]) <= created(records[j]) {
      assert scan[i] == records[i];
    }
  }

  lemma {:induction false} KeptExactly(scan: seq<Record>)
    ensures forall r :: r in Kept(scan) <==> r in scan && !r.testLead
    ensures |Kept(scan)| <= |scan|
  {
    if scan != [] {
      var n := |scan| - 1;
      KeptExactly(scan[..n]);
      assert scan == scan[..n] + [scan[n]];
    }
  }

  predicate HasOccurrence(kept: seq<Record>, o: (RecordId, Time), now: Time) {
    exists r | r in kept :: r.id == o.0 && r.fireAt == Some(o.1) && o.1 > now
  }

  lemma {:induction false} OccurrencesExactly(kept: seq<Record>, now: Time)
    ensures forall o :: o in Occurrences(kept, now) <==> HasOccurrence(kept, o, now)
    ensures |Occurrences(kept, now)| <= |kept|
  {
    if kept != [] {
      var n := |kept| - 1;
      var init := kept[..n];
      OccurrencesExactly(init, now);
      assert kept == init + [kept[n]];
      forall o ensures HasOccurrence(kept, o, now) <==> HasOccurrence(init, o, now) || HasOccurrence([kept[n]], o, now) {
        if HasOccurrence(init, o, now) {
          var r :| r in init && r.id == o.0 && r.fireAt == Some(o.1);
          assert r in kept;
        }
        if HasOccurrence([kept[n]], o, now) {
          assert kept[n] in kept;
        }
        if r :| r in kept && r.id == o.0 && r.fireAt == Some(o.1) && o.1 > now {
          assert r in init || r in [kept[n]];
        }
      }
    }
  }

  predicate ListsKey(occs: seq<(RecordId, Time)>, key: string) {
    exists o | o in occs :: DedupeKey(o.0, o.1) == key
  }

  lemma {:induction false} ArmAllRows(rows: Table, occs: seq<(RecordId, Time)>)
    ensures var all := ArmAll(rows, occs);
            && (forall k :: k in all <==> k in rows || ListsKey(occs, k))
            && (forall k | k in rows :: all[k] == rows[k])
            && (forall k | k in all && k !in rows :: all[k].status.Pending?)
  {
    if occs != [] {
      var n := |occs| - 1;
      ArmAllRows(rows, occs[..n]);
      assert occs == occs[..n] + [occs[n]];
      forall k ensures ListsKey(occs, k) <==> ListsKey(occs[..n], k) || DedupeKey(occs[n].0, occs[n].1) == k {
        ListsKeyAppend(occs[..n], occs[n], k);
      }
    }
  }

  lemma ListsKeyAppend(occs: seq<(RecordId, Time)>, o: (RecordId, Time), k: string)
    ensures ListsKey(occs + [o], k) <==> ListsKey(occs, k) || DedupeKey(o.0, o.1) == k
  {
    var all := occs + [o];
    assert all[|occs|] == o;
    if ListsKey(occs, k) {
      var m :| m in occs && DedupeKey(m.0, m.1) == k;
      assert m in all;
    }
  }

  /** The keys a reconcile arms. */
  predicate Wanted(records: seq<Record>, limit: nat, now: Time, key: string) {
    exists r | r in ScanOf(records, limit) :: Eligible(r, now) && key == DedupeKey(r.id, r.fireAt.value)
  }

  lemma WantedAreListed(records: seq<Record>, limit: nat, now: Time, key: string)
    ensures Wanted(records, limit, now, key) <==> ListsKey(Occurrences(Kept(ScanOf(records, limit)), now), key)
  {
    var scan := ScanOf(records, limit);
    var occs := Occurrences(Kept(scan), now);
    KeptExactly(scan);
    OccurrencesExactly(Kept(scan), now);
    if r :| r in scan && Eligible(r, now) && key == DedupeKey(r.id, r.fireAt.value) {
      assert HasOccurrence(Kept(scan), (r.id, r.fireAt.value), now);
      assert (r.id, r.fireAt.value) in occs;
    }
    if o :| o in occs && DedupeKey(o.0, o.1) == key {
      var r :| r in Kept(scan) && r.id == o.0 && r.fireAt == Some(o.1) && o.1 > now;
      assert r in scan && Eligible(r, now);
    }
  }

  /**
   The pending timers after a reconcile are exactly one per eligible scanned record, at its current fire time;
   nothing of an older config, object or date survives, and fired rows are untouched.
   */
  lemma ReconcileExact(rows: Table, records: seq<Record>, limit: nat, now: Time)
    requires TableOk(rows, now) && RecordsOk(records)
    ensures var next := Reconciled(rows, true, records, limit, now);
            && (forall k :: k in next && next[k].status.Pending? <==> Wanted(records, limit, now, k))
            && (forall k | k in rows && rows[k].status.Fired? :: k in next && next[k] == rows[k])
  {
    ArmAllRows(CancelAll(rows), Occurrences(Kept(ScanOf(records, limit)), now));
    var next := Reconciled(rows, true, records, limit, now);
    forall k ensures k in next && next[k].status.Pending? <==> Wanted(records, limit, now, k) {
      WantedAreListed(records, limit, now, k);
      if Wanted(records, limit, now, k) && k in CancelAll(rows) {
        var r :| r in ScanOf(records, limit) && Eligible(r, now) && k == DedupeKey(r.id, r.fireAt.value);
        RowFireAt(rows, now, r.id, r.fireAt.value);
      }
    }
  }

  /** Each eligible scanned record has exactly one pending timer. */
  lemma ReconcileOneEach(rows: Table, records: seq<Record>, limit: nat, now: Time, rec: Record)
    requires TableOk(rows, now) && RecordsOk(records) && rec in ScanOf(records, limit)
    ensures PendingOf(Reconciled(rows, true, records, limit, now), rec.id)
         == if Eligible(rec, now) then {DedupeKey(rec.id, rec.fireAt.value)} else {}
  {
    var next := Reconciled(rows, true, records, limit, now);
    ReconcileExact(rows, records, limit, now);
    forall k | k in PendingOf(next, rec.id) ensures Eligible(rec, now) && k == DedupeKey(rec.id, rec.fireAt.value) {
      WantedIsOwn(records, limit, now, rec, k);
    }
    if Eligible(rec, now) { PrefixSeparates(rec.id, rec.id, rec.fireAt.value); }
  }

  /** A wanted key under a record's prefix is that record's own. */
  lemma WantedIsOwn(records: seq<Record>, limit: nat, now: Time, rec: Record, key: string)
    requires RecordsOk(records) && rec in ScanOf(records, limit)
    requires Wanted(records, limit, now, key) && OfRecord(key, rec.id)
    ensures Eligible(rec, now) && key == DedupeKey(rec.id, rec.fireAt.value)
  {
    var r :| r in ScanOf(records, limit) && Eligible(r, now) && key == DedupeKey(r.id, r.fireAt.value);
    ScannedOnce(records, limit, rec, r);
    PrefixSeparates(rec.id, r.id, r.fireAt.value);
  }

  lemma ScannedOnce(records: seq<Record>, limit: nat, a: Record, b: Record)
    requires RecordsOk(records) && a in ScanOf(records, limit) && b in ScanOf(records, limit)
    ensures ColonFree(a.id) && ColonFree(b.id) && (a.id == b.id ==> a == b)
  {
    var i :| 0 <= i < |records| && records[i] == a;
    var j :| 0 <= j < |records| && records[j] == b;
  }

  /** The result depends on the old table only through its fired rows: on, off and on again changes nothing. */
  lemma OnOffOn(rows: Table, records: seq<Record>, limit: nat, now: Time)
    ensures var on := Reconciled(rows, true, records, limit, now);
            var off := Reconciled(on, false, records, limit, now);
            && Reconciled(off, true, records, limit, now) == on
            && Reconciled(on, true, records, limit, now) == on
            && forall k | k in off :: off[k].status.Fired?
  {
    var occs := Occurrences(Kept(ScanOf(records, limit)), now);
    ArmAllRows(CancelAll(rows), occs);
    var on := Reconciled(rows, true, records, limit, now);
    assert CancelAll(on) == CancelAll(rows);
    assert CancelAll(CancelAll(on)) == CancelAll(on);
  }

  /* ---- Counters ---- */

  lemma {:induction false} KeptDistinct(scan: seq<Record>)
    requires RecordsOk(scan)
    ensures RecordsOk(Kept(scan))
  {
    if scan != [] {
      var init, last := scan[..|scan| - 1], scan[|scan| - 1];
      KeptDistinct(init);
      KeptExactly(init);
      forall r | r in Kept(init) ensures r.id != last.id && ColonFree(r.id) {
        var j :| 0 <= j < |init| && init[j] == r;
        assert scan[j] == r;
      }
      DistinctAppend(Kept(init), last);
    }
  }

  lemma DistinctAppend(init: seq<Record>, last: Record)
    requires RecordsOk(init) && ColonFree(last.id) && forall r | r in init :: r.id != last.id
    ensures RecordsOk(init + [last])
  {
  }

  lemma {:induction false} ArmAllCount(rows: Table, kept: seq<Record>, now: Time)
    requires RecordsOk(kept)
    requires forall r | r in kept && r.fireAt.Some? && r.fireAt.value > now :: DedupeKey(r.id, r.fireAt.value) !in rows
    ensures |ArmAll(rows, Occurrences(kept, now))| == |rows| + |Occurrences(kept, now)|
  {
    if kept != [] {
      var init, last := kept[..|kept| - 1], kept[|kept| - 1];
      assert forall r | r in init :: r in kept;
      ArmAllCount(rows, init, now);
      if last.fireAt.Some? && last.fireAt.value > now {
        assert last in kept;
        NotListedBefore(kept, now);
        ArmOneMore(rows, Occurrences(init, now), last.id, last.fireAt.value);
      } else {
        assert Occurrences(kept, now) == Occurrences(init, now);
      }
    }
  }

  lemma ArmOneMore(rows: Table, occs: seq<(RecordId, Time)>, record: RecordId, fireAt: Time)
    requires DedupeKey(record, fireAt) !in rows && !ListsKey(occs, DedupeKey(record, fireAt))
    ensures |ArmAll(rows, occs + [(record, fireAt)])| == |ArmAll(rows, occs)| + 1
  {
    ArmAllRows(rows, occs);
    assert (occs + [(record, fireAt)])[..|occs|] == occs;
  }

  /** A record's key is not among those of the records before it. */
  lemma NotListedBefore(kept: seq<Record>, now: Time)
    requires RecordsOk(kept) && kept != []
    requires kept[|kept| - 1].fireAt.Some?
    ensures var last := kept[|kept| - 1];
            !ListsKey(Occurrences(kept[..|kept| - 1], now), DedupeKey(last.id, last.fireAt.value))
  {
    var n := |kept| - 1;
    var last, occs := kept[n], Occurrences(kept[..n], now);
    OccurrencesExactly(kept[..n], now);
    forall o | o in occs ensures DedupeKey(o.0, o.1) != DedupeKey(last.id, last.fireAt.value) {
      var r :| r in kept[..n] && r.id == o.0 && r.fireAt == Some(o.1);
      var j :| 0 <= j < n && kept[..n][j] == r;
      assert kept[j].id == o.0;
      if DedupeKey(o.0, o.1) == DedupeKey(last.id, last.fireAt.value) {
        KeyInjective(o.0, o.1, last.id, last.fireAt.value);
      }
    }
  }

  /** The counters add up: every scanned record was armed, a test lead, or without a future date. */
  lemma CountersAddUp(rows: Table, records: seq<Record>, limit: nat, now: Time)
    requires TableOk(rows, now) && RecordsOk(records)
    ensures var scan := ScanOf(records, limit);
            var kept := Kept(scan);
            var armed := |Reconciled(rows, true, records, limit, now)| - |CancelAll(rows)|;
            |scan| == armed + (|scan| - |kept|) + (|kept| - |Occurrences(kept, now)|)
  {
    var scan := ScanOf(records, limit);
    var kept := Kept(scan);
    KeptDistinct(scan);
    KeptExactly(scan);
    forall r | r in kept && r.fireAt.Some? && r.fireAt.value > now
      ensures DedupeKey(r.id, r.fireAt.value) !in CancelAll(rows)
    {
      if DedupeKey(r.id, r.fireAt.value) in rows { RowFireAt(rows, now, r.id, r.fireAt.value); }
    }
    ArmAllCount(CancelAll(rows), kept, now);
  }

  /* ---- Live events, in order ---- */

  function Live(events: seq<LiveEvent>): Table {
    if events == [] then map[] else LiveStep(Live(events[..|events| - 1]), events[|events| - 1])
  }

  /** What one event makes of the occurrence a record should have pending. */
  function ExpectedNext(before: Option<Time>, e: LiveEvent): Option<Time> {
    match e
    case Deleted(_, _) => None
    case Wrote(_, fireAt, silenced, now) =>
      if fireAt.None? || fireAt.value <= now then None
      else if silenced then before
      else fireAt
    case FiredDue(_, due, now) => if due <= now && before == Some(due) then None else before
  }

  /** The occurrence a record should have pending after these events, if any. */
  function Expected(events: seq<LiveEvent>, record: RecordId): Option<Time> {
    if events == [] then None
    else
      var before, e := Expected(events[..|events| - 1], record), events[|events| - 1];
      if e.record == record then ExpectedNext(before, e) else before
  }

  /** The clock never runs backwards, and record ids are free of the key separator. */
  predicate InOrder(events: seq<LiveEvent>) {
    && (forall i :: 0 <= i < |events| ==> ColonFree(events[i].record))
    && (forall i, j :: 0 <= i < j < |events| ==> events[i].now <= events[j].now)
  }

  lemma FireKeepsOk(rows: Table, record: RecordId, fireAt: Time, now: Time)
    requires TableOk(rows, now) && ColonFree(record) && fireAt <= now && IsArmed(rows, record, fireAt)
    ensures TableOk(Fire(rows, DedupeKey(record, fireAt)), now)
    ensures PendingOf(Fire(rows, DedupeKey(record, fireAt)), record) == PendingOf(rows, record) - {DedupeKey(record, fireAt)}
  {
    RowFireAt(rows, now, record, fireAt);
  }

  lemma LaterStillOk(rows: Table, now: Time, later: Time)
    requires TableOk(rows, now) && now <= later
    ensures TableOk(rows, later)
  {
  }

  /** An event leaves its own record with what is expected, and the table sound. */
  lemma OwnEvent(rows: Table, e: LiveEvent, before: Option<Time>)
    requires TableOk(rows, e.now) && ColonFree(e.record)
    requires PendingOf(rows, e.record) == Pending1(e.record, before)
    ensures TableOk(LiveStep(rows, e), e.now)
    ensures PendingOf(LiveStep(rows, e), e.record) == Pending1(e.record, ExpectedNext(before, e))
  {
    match e
    case Deleted(record, now) => CancelClears(rows, record, now);
    case Wrote(record, fireAt, silenced, now) =>
      if fireAt.None? || fireAt.value <= now {
        CancelClears(rows, record, now);
      } else if !silenced {
        MaterializeMoves(rows, record, fireAt.value, now);
      }
    case FiredDue(record, due, now) =>
      PrefixSeparates(record, record, due);
      assert IsArmed(rows, record, due) <==> DedupeKey(record, due) in PendingOf(rows, record);
      if before.Some? && DedupeKey(record, due) == DedupeKey(record, before.value) {
        KeyInjective(record, due, record, before.value);
      }
      if due <= now && IsArmed(rows, record, due) {
        FireKeepsOk(rows, record, due, now);
      }
  }

  function Pending1(record: RecordId, expected: Option<Time>): set<string> {
    match expected
    case None => {}
    case Some(f) => {DedupeKey(record, f)}
  }

  /** An event leaves every row of other records alone. */
  lemma OwnRowsOnly(rows: Table, e: LiveEvent)
    requires TableOk(rows, e.now) && ColonFree(e.record)
    ensures var next := LiveStep(rows, e);
            && (forall k | !OfRecord(k, e.record) :: k in next <==> k in rows)
            && (forall k | k in rows && !OfRecord(k, e.record) :: next[k] == rows[k])
  {
    match e
    case Deleted(record, now) => CancelClears(rows, record, now);
    case Wrote(record, fireAt, silenced, now) =>
      if fireAt.None? || fireAt.value <= now {
        CancelClears(rows, record, now);
      } else if !silenced {
        MaterializeMoves(rows, record, fireAt.value, now);
      }
    case FiredDue(record, due, now) => PrefixSeparates(record, record, due);
  }

  /** After any sequence of live events, each record has exactly its expected occurrence pending: at most one, at its latest date. */
  lemma {:induction false} LiveTimers(events: seq<LiveEvent>, record: RecordId)
    requires InOrder(events) && ColonFree(record)
    ensures events != [] ==> TableOk(Live(events), events[|events| - 1].now)
    ensures PendingOf(Live(events), record)
         == Pending1(record, Expected(events, record))
    decreases |events|
  {
    if events != [] {
      var n := |events| - 1;
      var init, e := events[..n], events[n];
      LiveTimers(init, record);
      LiveTimers(init, e.record);
      if init != [] { LaterStillOk(Live(init), events[n - 1].now, e.now); }
      OwnEvent(Live(init), e, Expected(init, e.record));
      if e.record != record {
        OwnRowsOnly(Live(init), e);
        OtherRecordsKept(Live(init), LiveStep(Live(init), e), e.record, record, e.now);
      }
    }
  }

  /** A fired occurrence stays fired whatever happens next: it is never re-armed, so never fires twice. */
  lemma {:induction false} FiredForGood(before: seq<LiveEvent>, later: seq<LiveEvent>, key: string)
    requires key in Live(before) && Live(before)[key].status.Fired?
    ensures key in Live(before + later) && Live(before + later)[key] == Live(before)[key]
    decreases |later|
  {
    if later == [] {
      assert before + later == before;
    } else {
      var rest := later[..|later| - 1];
      assert (before + later)[..|before + later| - 1] == before + rest;
      FiredForGood(before, rest, key);
      StepKeepsFired(Live(before + rest), later[|later| - 1], key);
    }
  }

  lemma StepKeepsFired(rows: Table, e: LiveEvent, key: string)
    requires key in rows && rows[key].status.Fired?
    ensures key in LiveStep(rows, e) && LiveStep(rows, e)[key] == rows[key]
  {
  }

  /** Firing a due occurrence that is armed takes it off the pending ones, and it stays fired under every later event. */
  lemma FiresForGood(before: seq<LiveEvent>, record: RecordId, due: Time, now: Time, later: seq<LiveEvent>)
    requires due <= now && IsArmed(Live(before), record, due)
    ensures var key, rows := DedupeKey(record, due), Live(before + [FiredDue(record, due, now)] + later);
            key in rows && rows[key].status.Fired? && key !in PendingOf(rows, record)
  {
    var fired := before + [FiredDue(record, due, now)];
    assert fired[..|fired| - 1] == before;
    FiredForGood(fired, later, DedupeKey(record, due));
  }

  /** Some event of the sequence fires the occurrence with this key, at or after its time. */
  predicate FiredOnTime(events: seq<LiveEvent>, key: string) {
    exists i | 0 <= i < |events| ::
      events[i].FiredDue? && events[i].due <= events[i].now && DedupeKey(events[i].record, events[i].due) == key
  }

  /** Nothing fires early: a fired timer was fired by the scheduler, when due. */
  lemma {:induction false} FiredWhenDue(events: seq<LiveEvent>, key: string)
    requires key in Live(events) && Live(events)[key].status.Fired?
    ensures FiredOnTime(events, key)
    decreases |events|
  {
    if events != [] {
      var init, e := events[..|events| - 1], events[|events| - 1];
      if key in Live(init) && Live(init)[key].status.Fired? {
        FiredWhenDue(init, key);
        var i :| 0 <= i < |init| && init[i].FiredDue? && init[i].due <= init[i].now && DedupeKey(init[i].record, init[i].due) == key;
        assert events[i] == init[i];
      }
    }
  }

  /** The event settles what its record should have pending: a date ahead, or nothing. */
  predicate Settles(e: LiveEvent, expected: Option<Time>) {
    match e
    case Deleted(_, _) => expected.None?
    case Wrote(_, fireAt, silenced, now) =>
      if fireAt.Some? && fireAt.value > now then !silenced && expected == fireAt else expected.None?
    case FiredDue(_, _, _) => false
  }

  /** The event changes nothing for a record with this occurrence pending. */
  predicate Idle(e: LiveEvent, record: RecordId, expected: Option<Time>) {
    || e.record != record
    || (e.Wrote? && e.silenced && e.fireAt.Some? && e.fireAt.value > e.now)
    || (e.FiredDue? && (expected != Some(e.due) || e.due > e.now))
  }

  lemma {:induction false} SettledStays(before: seq<LiveEvent>, e: LiveEvent, later: seq<LiveEvent>, expected: Option<Time>)
    requires Settles(e, expected) && forall i :: 0 <= i < |later| ==> Idle(later[i], e.record, expected)
    ensures Expected(before + [e] + later, e.record) == expected
    decreases |later|
  {
    var all := before + [e] + later;
    if later == [] {
      assert all[..|all| - 1] == before && all[|all| - 1] == e;
    } else {
      var rest := later[..|later| - 1];
      SettledStays(before, e, rest, expected);
      assert all[..|all| - 1] == before + [e] + rest;
    }
  }

  /**
   The last word counts: after a write that dates the record ahead it has exactly that occurrence pending, after a delete or
   a write without a date ahead none, until an event of its own changes that. What other records do never matters.
   */
  lemma LastWriteStands(before: seq<LiveEvent>, e: LiveEvent, later: seq<LiveEvent>, expected: Option<Time>)
    requires InOrder(before + [e] + later)
    requires Settles(e, expected) && forall i :: 0 <= i < |later| ==> Idle(later[i], e.record, expected)
    ensures PendingOf(Live(before + [e] + later), e.record) == if expected.Some? then {DedupeKey(e.record, expected.value)} else {}
  {
    var all := before + [e] + later;
    assert all[|before|] == e;
    SettledStays(before, e, later, expected);
    LiveTimers(all, e.record);
  }
}
