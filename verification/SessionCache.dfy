/** The per-session AI context cache (session_context.go). */
module SessionCache {
  import opened Common

  /** Session ids; 0 is the nil id. */
  type SessionId = nat

  datatype Entry = Entry(intent: string, summary: string, timestamp: Time)

  datatype Session = Session(entries: seq<Entry>, updatedAt: Time)

  type Sessions = map<SessionId, Session>

  const MAX_ENTRIES_PER_SESSION := 10
  const SESSION_TTL: Time := 30 * 60
  const MAX_SESSIONS := 500

  predicate Expired(s: Session, now: Time) { now - s.updatedAt > SESSION_TTL }

  function LastTen(entries: seq<Entry>): seq<Entry> {
    if |entries| > MAX_ENTRIES_PER_SESSION then entries[|entries| - MAX_ENTRIES_PER_SESSION..] else entries
  }

  function Unexpired(sessions: Sessions, now: Time): Sessions {
    map id | id in sessions && !Expired(sessions[id], now) :: sessions[id]
  }

  /** What a cleanup may leave of the sessions it found. */
  ghost predicate CleanedUp(before: Sessions, after: Sessions, now: Time) {
    && (forall id | id in after :: id in before && after[id] == before[id] && !Expired(after[id], now))
    && |after| == (if |Unexpired(before, now)| > MAX_SESSIONS then MAX_SESSIONS else |Unexpired(before, now)|)
    && (|Unexpired(before, now)| <= MAX_SESSIONS ==> after == Unexpired(before, now))
    && (forall gone, kept | gone in before && gone !in after && !Expired(before[gone], now) && kept in after ::
          before[gone].updatedAt <= after[kept].updatedAt)
  }

  class Cache {
    var sessions: Sessions

    constructor ()
      ensures sessions == map[]
    {
      sessions := map[];
    }

    method Push(id: SessionId, intent: string, summary: string, now: Time)
      modifies this
      ensures id == 0 || summary == "" ==> sessions == old(sessions)
      ensures id != 0 && summary != "" ==>
        var all := (if id in old(sessions) then old(sessions)[id].entries else []) + [Entry(intent, summary, now)];
        sessions == old(sessions)[id := Session(all[if |all| > 10 then |all| - 10 else 0..], now)]
    {
      if id == 0 || summary == "" { return; }
      if id !in sessions {
        sessions := sessions[id := Session([], 0)];
      }
      var ctx := sessions[id];
      ctx := Session(ctx.entries + [Entry(intent, summary, now)], now);
      if |ctx.entries| > MAX_ENTRIES_PER_SESSION {
        ctx := ctx.(entries := ctx.entries[|ctx.entries| - MAX_ENTRIES_PER_SESSION..]);
      }
      sessions := sessions[id := ctx];
    }

    method Clear(id: SessionId)
      modifies this
      ensures sessions == old(sessions) - {id}
    {
      sessions := sessions - {id};
    }

    method Cleanup(now: Time)
      modifies this
      ensures CleanedUp(old(sessions), sessions, now)
    {
      DropExpired(now);
      ghost var unexpired := sessions;
      while |sessions| > MAX_SESSIONS
        invariant forall id | id in sessions :: id in unexpired && sessions[id] == unexpired[id]
        invariant |unexpired| <= MAX_SESSIONS ==> sessions == unexpired
        invariant |unexpired| > MAX_SESSIONS ==> |sessions| >= MAX_SESSIONS
        invariant forall gone, kept | gone in unexpired && gone !in sessions && kept in sessions ::
                    unexpired[gone].updatedAt <= sessions[kept].updatedAt
        decreases |sessions|
      {
        var oldest := Oldest();
        RemoveShrinks(sessions, oldest);
        sessions := sessions - {oldest};
      }
    }

    /** The first loop of cleanup: visit every session, delete the expired ones. */
    method DropExpired(now: Time)
      modifies this
      ensures sessions == Unexpired(old(sessions), now)
    {
      var todo := sessions.Keys;
      while todo != {}
        invariant todo <= old(sessions).Keys
        invariant forall id :: id in sessions <==> id in old(sessions) && (id in todo || !Expired(old(sessions)[id], now))
        invariant forall id | id in sessions :: sessions[id] == old(sessions)[id]
        decreases |todo|
      {
        var id :| id in todo;
        if Expired(sessions[id], now) {
          sessions := sessions - {id};
        }
        todo := todo - {id};
      }
    }

    /** The scan of the second loop, in whatever order the map yields its sessions. */
    method Oldest() returns (oldest: SessionId)
      requires sessions != map[]
      ensures oldest in sessions
      ensures forall id | id in sessions :: sessions[oldest].updatedAt <= sessions[id].updatedAt
    {
      assert sessions.Keys != {};
      var best: Option<SessionId> := None;
      var todo := sessions.Keys;
      while todo != {}
        invariant todo <= sessions.Keys
        invariant best.None? ==> todo == sessions.Keys
        invariant best.Some? ==> best.value in sessions
        invariant best.Some? ==> forall id | id in sessions && id !in todo :: sessions[best.value].updatedAt <= sessions[id].updatedAt
        decreases |todo|
      {
        var id :| id in todo;
        if best.None? || sessions[id].updatedAt < sessions[best.value].updatedAt {
          best := Some(id);
        }
        todo := todo - {id};
      }
      oldest := best.value;
    }
  }

  lemma RemoveShrinks(sessions: Sessions, id: SessionId)
    requires id in sessions
    ensures |sessions - {id}| == |sessions| - 1
  {
    assert (sessions - {id}).Keys == sessions.Keys - {id};
    assert |(sessions - {id}).Keys| == |sessions - {id}|;
    assert |sessions.Keys| == |sessions|;
  }

  /* ---- Whole histories ---- */

  /** One call; a cleanup records what it left. */
  datatype Op =
    | Pushed(id: SessionId, entry: Entry)
    | Cleared(id: SessionId)
    | Cleaned(now: Time, left: Sessions)

  function Step(sessions: Sessions, op: Op): Sessions {
    match op
    case Pushed(id, entry) =>
      if id == 0 || entry.summary == "" then sessions
      else
        var entries := if id in sessions then sessions[id].entries else [];
        sessions[id := Session(LastTen(entries + [entry]), entry.timestamp)]
    case Cleared(id) => sessions - {id}
    case Cleaned(_, left) => left
  }

  function After(ops: seq<Op>): Sessions {
    if ops == [] then map[] else Step(After(ops[..|ops| - 1]), ops[|ops| - 1])
  }

  /** Every cleanup of the history left what a cleanup may leave. */
  ghost predicate Faithful(ops: seq<Op>) {
    forall i :: 0 <= i < |ops| && ops[i].Cleaned? ==> CleanedUp(After(ops[..i]), ops[i].left, ops[i].now)
  }

  /** The pushes of a session after one more call. */
  function MorePushes(before: seq<Entry>, op: Op, id: SessionId): seq<Entry> {
    match op
    case Pushed(to, entry) => if to == id && id != 0 && entry.summary != "" then before + [entry] else before
    case Cleared(gone) => if gone == id then [] else before
    case Cleaned(_, left) => if id in left then before else []
  }

  /** The pushes a session has received since it was last created. */
  function PushesSinceCreation(ops: seq<Op>, id: SessionId): seq<Entry> {
    if ops == [] then [] else MorePushes(PushesSinceCreation(ops[..|ops| - 1], id), ops[|ops| - 1], id)
  }

  lemma LastTenAgain(entries: seq<Entry>, entry: Entry)
    ensures LastTen(LastTen(entries) + [entry]) == LastTen(entries + [entry])
  {
  }

  /** The session exists exactly when it has pushes, and then holds the last ten and was updated by the newest. */
  predicate Holds(sessions: Sessions, id: SessionId, pushes: seq<Entry>) {
    && (id in sessions <==> pushes != [])
    && (id in sessions ==> sessions[id] == Session(LastTen(pushes), pushes[|pushes| - 1].timestamp))
  }

  lemma StepHolds(sessions: Sessions, op: Op, id: SessionId, pushes: seq<Entry>)
    requires Holds(sessions, id, pushes) && (op.Cleaned? ==> CleanedUp(sessions, op.left, op.now))
    ensures Holds(Step(sessions, op), id, MorePushes(pushes, op, id))
  {
    match op
    case Pushed(to, entry) =>
      if to == id && id != 0 && entry.summary != "" {
        LastTenAgain(pushes, entry);
        assert pushes == [] ==> LastTen([]) == [];
      }
    case _ =>
  }

  lemma {:induction false} AlwaysHolds(ops: seq<Op>, id: SessionId)
    requires Faithful(ops)
    ensures Holds(After(ops), id, PushesSinceCreation(ops, id))
    decreases |ops|
  {
    if ops != [] {
      var n := |ops| - 1;
      forall i | 0 <= i < n && ops[..n][i].Cleaned? ensures CleanedUp(After(ops[..n][..i]), ops[..n][i].left, ops[..n][i].now) {
        assert ops[..n][..i] == ops[..i];
      }
      AlwaysHolds(ops[..n], id);
      StepHolds(After(ops[..n]), ops[n], id, PushesSinceCreation(ops[..n], id));
    }
  }

  /**
   A live session holds exactly its newest pushes since it was created, ten of them or all there are, in order, and was
   last updated by the newest; a session without pushes does not exist.
   */
  lemma HoldsLastTen(ops: seq<Op>, id: SessionId)
    requires Faithful(ops)
    ensures id in After(ops) <==> PushesSinceCreation(ops, id) != []
    ensures id in After(ops) ==>
              var pushes := PushesSinceCreation(ops, id);
              && After(ops)[id].entries == pushes[if |pushes| > 10 then |pushes| - 10 else 0..]
              && After(ops)[id].updatedAt == pushes[|pushes| - 1].timestamp
  {
    AlwaysHolds(ops, id);
  }

  /**
   What a cleanup leaves: at most 500 sessions, none idle for more than half an hour; and while there is room for all
   that are not, it drops none of them.
   */
  lemma CleanupLeaves(before: Sessions, after: Sessions, now: Time)
    requires CleanedUp(before, after, now)
    ensures |after| <= 500 && forall id | id in after :: now - after[id].updatedAt <= 1800
    ensures |after| < 500 ==> forall id | id in before && now - before[id].updatedAt <= 1800 :: id in after && after[id] == before[id]
  {
    if |after| < 500 {
      forall id | id in before && now - before[id].updatedAt <= 1800 ensures id in after && after[id] == before[id] {
        assert id in Unexpired(before, now);
      }
    }
  }
}
