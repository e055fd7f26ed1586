/** The date_field timers of one workflow, keyed as the unique index keys them (datefield_timers.go, timers.go). */
module TimerTable {
  import opened Common
  import opened Decimal

  type RecordId = string

  datatype TimerStatus = Pending | Fired

  datatype Timer = Timer(fireAt: Time, status: TimerStatus)

  /** Rows by dedupe key: at most one per key, as the unique (workflow, dedupe_key) index enforces. */
  type Table = map<string, Timer>

  /* ---- Keys ---- */

  function DedupePrefix(record: RecordId): string { "df:" + record + ":" }

  function DedupeKey(record: RecordId, fireAt: Time): string { DedupePrefix(record) + FormatInt(fireAt) }

  /** dedupe_key LIKE prefix%. */
  predicate OfRecord(key: string, record: RecordId) { DedupePrefix(record) <= key }

  predicate ColonFree(record: RecordId) { ':' !in record }

  /** A record's prefix matches its own keys and no other record's. */
  lemma PrefixSeparates(r: RecordId, q: RecordId, fireAt: Time)
    requires ColonFree(r) && ColonFree(q)
    ensures OfRecord(DedupeKey(q, fireAt), r) <==> q == r
  {
    var p, k := DedupePrefix(r), DedupeKey(q, fireAt);
    if p <= k {
      assert forall i :: 0 <= i < |r| ==> p[3 + i] == r[i] == k[3 + i];
      assert p[3 + |r|] == ':' == k[3 + |r|];
      assert forall i :: 0 <= i < |q| ==> k[3 + i] == q[i];
      assert k[3 + |q|] == ':';
      if |r| != |q| { assert false; }
    }
    if q == r {
      assert k[..|p|] == p;
    }
  }

  /** A key, written out. */
  lemma KeyText()
    ensures DedupeKey("lead", 100) == "df:lead:100" && DedupeKey("lead", -5) == "df:lead:-5"
  {
    assert FormatNat(1) == "1" && FormatNat(10) == "10" && FormatNat(100) == "100" && FormatNat(5) == "5";
    assert DedupePrefix("lead") == "df:lead:";
  }

  lemma KeyInjective(r: RecordId, f: Time, q: RecordId, g: Time)
    requires ColonFree(r) && ColonFree(q) && DedupeKey(r, f) == DedupeKey(q, g)
    ensures r == q && f == g
  {
    PrefixSeparates(r, q, g);
    PrefixSeparates(r, r, f);
    var n := |DedupePrefix(r)|;
    assert DedupeKey(r, f)[n..] == FormatInt(f) && DedupeKey(q, g)[n..] == FormatInt(g);
    FormatIntInjective(f, g);
  }

  /* ---- Statements ---- */

  /** INSERT ... ON CONFLICT DO NOTHING of one pending timer. */
  function Arm(rows: Table, record: RecordId, fireAt: Time): Table {
    var key := DedupeKey(record, fireAt);
    if key in rows then rows else rows[key := Timer(fireAt, Pending)]
  }

  /** CancelDateFieldTimersForRecord: drop the record's pending timers. */
  function CancelRecord(rows: Table, record: RecordId): Table {
    map k | k in rows && !(rows[k].status.Pending? && OfRecord(k, record)) :: rows[k]
  }

  /** MaterializeDateFieldTimer: drop the record's other pending timers, then arm this occurrence. */
  function Materialize(rows: Table, record: RecordId, fireAt: Time): Table {
    var key := DedupeKey(record, fireAt);
    Arm(map k | k in rows && !(rows[k].status.Pending? && OfRecord(k, record) && k != key) :: rows[k], record, fireAt)
  }

  /** CancelWorkflowTimers: drop every pending timer. */
  function CancelAll(rows: Table): Table {
    map k | k in rows && !rows[k].status.Pending? :: rows[k]
  }

  /** MarkTimerFired. */
  function Fire(rows: Table, key: string): Table {
    if key in rows then rows[key := rows[key].(status := Fired)] else rows
  }

  predicate IsArmed(rows: Table, record: RecordId, fireAt: Time) {
    DedupeKey(record, fireAt) in rows && rows[DedupeKey(record, fireAt)].status.Pending?
  }

  /** Every row was written by Arm, and a fired one is in the past. */
  ghost predicate TableOk(rows: Table, now: Time) {
    forall k | k in rows ::
      && (exists r, f :: ColonFree(r) && k == DedupeKey(r, f) && rows[k].fireAt == f)
      && (rows[k].status.Fired? ==> rows[k].fireAt <= now)
  }

  lemma RowFireAt(rows: Table, now: Time, record: RecordId, fireAt: Time)
    requires TableOk(rows, now) && ColonFree(record) && DedupeKey(record, fireAt) in rows
    ensures rows[DedupeKey(record, fireAt)].fireAt == fireAt
    ensures fireAt > now ==> IsArmed(rows, record, fireAt)
  {
    var k := DedupeKey(record, fireAt);
    var r, f :| ColonFree(r) && k == DedupeKey(r, f) && rows[k].fireAt == f;
    KeyInjective(record, fireAt, r, f);
  }

  lemma ArmKeepsOk(rows: Table, record: RecordId, fireAt: Time, now: Time)
    requires TableOk(rows, now) && ColonFree(record)
    ensures TableOk(Arm(rows, record, fireAt), now)
  {
  }

  /* ---- One record's pending timers ---- */

  function PendingOf(rows: Table, record: RecordId): set<string> {
    set k | k in rows && rows[k].status.Pending? && OfRecord(k, record)
  }

  /** Materialising leaves exactly the new occurrence pending for its record and touches no other record. */
  lemma MaterializeMoves(rows: Table, record: RecordId, fireAt: Time, now: Time)
    requires TableOk(rows, now) && ColonFree(record) && fireAt > now
    ensures PendingOf(Materialize(rows, record, fireAt), record) == {DedupeKey(record, fireAt)}
    ensures TableOk(Materialize(rows, record, fireAt), now)
    ensures forall k | !OfRecord(k, record) :: k in Materialize(rows, record, fireAt) <==> k in rows
    ensures forall k | k in rows && !OfRecord(k, record) :: Materialize(rows, record, fireAt)[k] == rows[k]
  {
    PrefixSeparates(record, record, fireAt);
    if DedupeKey(record, fireAt) in rows { RowFireAt(rows, now, record, fireAt); }
  }

  lemma CancelClears(rows: Table, record: RecordId, now: Time)
    requires TableOk(rows, now)
    ensures PendingOf(CancelRecord(rows, record), record) == {}
    ensures TableOk(CancelRecord(rows, record), now)
    ensures forall k | !OfRecord(k, record) :: k in CancelRecord(rows, record) <==> k in rows
    ensures forall k | k in rows && !OfRecord(k, record) :: CancelRecord(rows, record)[k] == rows[k]
  {
  }

  /** A record's pending timers are untouched by what happens to another record's rows. */
  lemma OtherRecordsKept(rows: Table, next: Table, record: RecordId, other: RecordId, now: Time)
    requires TableOk(rows, now) && TableOk(next, now) && ColonFree(record) && ColonFree(other) && record != other
    requires forall k | !OfRecord(k, record) :: k in next <==> k in rows
    requires forall k | k in rows && !OfRecord(k, record) :: next[k] == rows[k]
    ensures PendingOf(next, other) == PendingOf(rows, other)
    ensures forall f :: IsArmed(next, other, f) <==> IsArmed(rows, other, f)
  {
    forall k | OfRecord(k, other) && (k in rows || k in next) ensures !OfRecord(k, record) {
      var table := if k in rows then rows else next;
      var r, f :| ColonFree(r) && k == DedupeKey(r, f) && table[k].fireAt == f;
      PrefixSeparates(other, r, f);
      PrefixSeparates(record, r, f);
    }
    forall f ensures IsArmed(next, other, f) <==> IsArmed(rows, other, f) {
      PrefixSeparates(other, other, f);
      PrefixSeparates(record, other, f);
    }
  }
}
