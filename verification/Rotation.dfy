/** Round-robin assignment (assign_routing.go, executor_assign.go). */
module Rotation {
  import opened Common

  type UserId = nat

  /* ---- Arithmetic ---- */

  /** Go's %: the remainder has the sign of the dividend. */
  function TruncMod(n: int, m: nat): int
    requires m > 0
  {
    if n >= 0 then n % m else -((-n) % m)
  }

  function NonNegMod(n: int, m: int): int {
    if m <= 0 then 0
    else
      var i := TruncMod(n, m);
      if i < 0 then i + m else i
  }

  lemma MulAtLeast(a: int, m: int)
    requires a >= 1 && m > 0
    ensures a * m >= m
  {
  }

  lemma DivUnique(y: int, m: int, q: int, r: int)
    requires m > 0 && y == q * m + r && 0 <= r < m
    ensures y / m == q && y % m == r
  {
    var p, s := y / m, y % m;
    assert y == p * m + s;
    SameQuotient(p, q, m, r, s);
  }

  lemma SameQuotient(p: int, q: int, m: int, r: int, s: int)
    requires m > 0 && 0 <= r < m && 0 <= s < m && p * m + s == q * m + r
    ensures p == q && r == s
  {
    assert (p - q) * m == p * m - q * m;
    assert (q - p) * m == q * m - p * m;
    if p > q {
      MulAtLeast(p - q, m);
    } else if p < q {
      MulAtLeast(q - p, m);
    }
  }

  /** The index is the mathematical residue, for negative tickets too. */
  lemma NonNegModIsResidue(n: int, m: int)
    requires m > 0
    ensures 0 <= NonNegMod(n, m) < m && NonNegMod(n, m) == n % m
  {
    if n < 0 {
      var q, r := (-n) / m, (-n) % m;
      assert -n == q * m + r;
      if r == 0 {
        assert n == (-q) * m + 0;
        DivUnique(n, m, -q, 0);
      } else {
        assert n == (-q - 1) * m + (m - r) by { assert (-q - 1) * m == -q * m - m; }
        DivUnique(n, m, -q - 1, m - r);
      }
    }
  }

  /* ---- The pool ---- */

  /** Repeats collapsed, first-seen order kept. */
  function Deduped(ids: seq<UserId>): seq<UserId> {
    if ids == [] then []
    else
      var init, last := ids[..|ids| - 1], ids[|ids| - 1];
      if last in init then Deduped(init) else Deduped(init) + [last]
  }

  predicate NoRepeats(ids: seq<UserId>) { forall i, j :: 0 <= i < j < |ids| ==> ids[i] != ids[j] }

  lemma {:induction false} DedupedProperties(ids: seq<UserId>)
    ensures NoRepeats(Deduped(ids))
    ensures forall u :: u in Deduped(ids) <==> u in ids
    ensures NoRepeats(ids) ==> Deduped(ids) == ids
  {
    if ids != [] {
      var n := |ids| - 1;
      DedupedProperties(ids[..n]);
      assert ids == ids[..n] + [ids[n]];
    }
  }

  /** The live members of a pool, in pool order. */
  function LiveMembers(pool: seq<UserId>, live: set<UserId>): seq<UserId> {
    if pool == [] then []
    else LiveMembers(pool[..|pool| - 1], live) + (if pool[|pool| - 1] in live then [pool[|pool| - 1]] else [])
  }

  lemma {:induction false} LiveMembersProperties(pool: seq<UserId>, live: set<UserId>)
    requires NoRepeats(pool)
    ensures NoRepeats(LiveMembers(pool, live))
    ensures forall u :: u in LiveMembers(pool, live) <==> u in pool && u in live
  {
    if pool != [] {
      var n := |pool| - 1;
      LiveMembersProperties(pool[..n], live);
      assert pool == pool[..n] + [pool[n]];
    }
  }

  function Pick(ticket: int, pool: seq<UserId>, live: set<UserId>): Option<UserId> {
    var members := LiveMembers(pool, live);
    if members == [] then None
    else
      NonNegModIsResidue(ticket, |members|);
      Some(members[NonNegMod(ticket, |members|)])
  }

  /* ---- Whose turn a ticket is ---- */

  /** How many of the first i members of the pool are live. */
  function LiveBefore(pool: seq<UserId>, live: set<UserId>, i: nat): nat
    requires i <= |pool|
  {
    if i == 0 then 0 else LiveBefore(pool, live, i - 1) + (if pool[i - 1] in live then 1 else 0)
  }

  lemma {:induction false} LiveBeforePrefix(pool: seq<UserId>, live: set<UserId>, n: nat, i: nat)
    requires i <= n <= |pool|
    ensures LiveBefore(pool[..n], live, i) == LiveBefore(pool, live, i)
    decreases i
  {
    if i > 0 { LiveBeforePrefix(pool, live, n, i - 1); }
  }

  /** Filtering keeps the pool's order: a live member comes after exactly the live members before it. */
  lemma {:induction false} LiveMemberAt(pool: seq<UserId>, live: set<UserId>, i: nat)
    requires i <= |pool|
    ensures |LiveMembers(pool, live)| == LiveBefore(pool, live, |pool|)
    ensures i < |pool| && pool[i] in live ==>
              LiveBefore(pool, live, i) < |LiveMembers(pool, live)| && LiveMembers(pool, live)[LiveBefore(pool, live, i)] == pool[i]
    decreases |pool|
  {
    if pool != [] {
      var n := |pool| - 1;
      LiveMemberAt(pool[..n], live, if i < n then i else n);
      LiveBeforePrefix(pool, live, n, n);
      if i < n { LiveBeforePrefix(pool, live, n, i); }
    }
  }

  /**
   Whose turn a ticket is: a live member's exactly when the ticket, modulo the number of live members, is the number of
   live members before him in the pool. Ticket 0 goes to the first live member. Nobody is picked only if nobody is live.
   */
  lemma TurnExactly(ticket: int, pool: seq<UserId>, live: set<UserId>, i: nat)
    requires NoRepeats(pool) && i < |pool| && pool[i] in live
    ensures LiveBefore(pool, live, |pool|) > 0
    ensures Pick(ticket, pool, live) == Some(pool[i]) <==> ticket % LiveBefore(pool, live, |pool|) == LiveBefore(pool, live, i)
  {
    var members := LiveMembers(pool, live);
    LiveMemberAt(pool, live, i);
    LiveMembersProperties(pool, live);
    NonNegModIsResidue(ticket, |members|);
    assert forall j :: 0 <= j < |members| && members[j] == pool[i] ==> j == LiveBefore(pool, live, i);
  }

  /** How many members of the list occur for the first time among its first i entries. */
  function FirstSeenBefore(ids: seq<UserId>, i: nat): nat
    requires i <= |ids|
  {
    if i == 0 then 0 else FirstSeenBefore(ids, i - 1) + (if ids[i - 1] in ids[..i - 1] then 0 else 1)
  }

  lemma {:induction false} FirstSeenPrefix(ids: seq<UserId>, n: nat, i: nat)
    requires i <= n <= |ids|
    ensures FirstSeenBefore(ids[..n], i) == FirstSeenBefore(ids, i)
    decreases i
  {
    if i > 0 {
      FirstSeenPrefix(ids, n, i - 1);
      assert ids[..n][..i - 1] == ids[..i - 1];
    }
  }

  /** Collapsing repeats keeps the first-seen order. */
  lemma {:induction false} DedupedAt(ids: seq<UserId>, i: nat)
    requires i <= |ids|
    ensures |Deduped(ids)| == FirstSeenBefore(ids, |ids|)
    ensures i < |ids| && ids[i] !in ids[..i] ==>
              FirstSeenBefore(ids, i) < |Deduped(ids)| && Deduped(ids)[FirstSeenBefore(ids, i)] == ids[i]
    decreases |ids|
  {
    if ids != [] {
      var n := |ids| - 1;
      DedupedAt(ids[..n], if i < n then i else n);
      FirstSeenPrefix(ids, n, n);
      if i < n {
        FirstSeenPrefix(ids, n, i);
        assert ids[..n][..i] == ids[..i];
      }
    }
  }

  /* ---- The code ---- */

  method DedupeUUIDs(ids: seq<UserId>) returns (out: seq<UserId>)
    ensures out == Deduped(ids)
  {
    var seen: set<UserId> := {};
    out := [];
    for i := 0 to |ids|
      invariant seen == set u | u in ids[..i]
      invariant out == Deduped(ids[..i])
    {
      assert ids[..i + 1][..i] == ids[..i];
      assert ids[..i + 1] == ids[..i] + [ids[i]];
      if ids[i] !in seen {
        seen := seen + {ids[i]};
        out := out + [ids[i]];
      }
    }
    assert ids[..|ids|] == ids;
  }

  method PickFromPool(ticket: int, pool: seq<UserId>, live: set<UserId>) returns (picked: Option<UserId>)
    ensures picked == Pick(ticket, pool, live)
  {
    var members: seq<UserId> := [];
    for i := 0 to |pool|
      invariant members == LiveMembers(pool[..i], live)
    {
      assert pool[..i + 1][..i] == pool[..i];
      if pool[i] in live {
        members := members + [pool[i]];
      }
    }
    assert pool[..|pool|] == pool;
    if |members| == 0 { return None; }
    NonNegModIsResidue(ticket, |members|);
    return Some(members[NonNegMod(ticket, |members|)]);
  }

  /** One cursor per (org, workflow, action). */
  datatype CursorKey = CursorKey(org: nat, workflow: nat, action: string)

  datatype Assignment = Assigned(user: UserId) | EmptyPool | NobodyLive

  class Cursors {
    var tickets: map<CursorKey, int>

    constructor ()
      ensures tickets == map[]
    {
      tickets := map[];
    }

    /** nextAssignTicket: the first claim of a step gets 0, each later one the next number. */
    method NextAssignTicket(key: CursorKey) returns (ticket: int)
      modifies this
      ensures ticket == (if key in old(tickets) then old(tickets)[key] + 1 else 0)
      ensures tickets == old(tickets)[key := ticket]
    {
      ticket := if key in tickets then tickets[key] + 1 else 0;
      tickets := tickets[key := ticket];
    }

    /** The round_robin strategy: the turn is claimed only once the pool is known to be non-empty. */
    method AssignRoundRobin(key: CursorKey, raw: seq<UserId>, live: set<UserId>) returns (a: Assignment)
      modifies this
      ensures raw == [] ==> a.EmptyPool? && tickets == old(tickets)
      ensures raw != [] ==>
        var ticket := if key in old(tickets) then old(tickets)[key] + 1 else 0;
        && tickets == old(tickets)[key := ticket]
        && a == match Pick(ticket, Deduped(raw), live) case None => NobodyLive case Some(u) => Assigned(u)
    {
      DedupedProperties(raw);
      assert raw != [] ==> raw[0] in Deduped(raw);
      var pool := DedupeUUIDs(raw);
      if |pool| == 0 {
        return EmptyPool;
      }
      var ticket := NextAssignTicket(key);
      var picked := PickFromPool(ticket, pool, live);
      a := match picked case None => NobodyLive case Some(u) => Assigned(u);
    }
  }

  /* ---- Fairness ---- */

  /** How many of the w tickets from `start` on go to the user. */
  function Turns(start: int, w: nat, pool: seq<UserId>, live: set<UserId>, user: UserId): nat {
    if w == 0 then 0
    else Turns(start, w - 1, pool, live, user) + (if Pick(start + w - 1, pool, live) == Some(user) then 1 else 0)
  }

  /** How many integers below x have residue j, up to a constant. */
  function Below(x: int, m: int, j: int): int
    requires m > 0
  {
    (x - j + m - 1) / m
  }

  lemma BelowStep(x: int, m: int, j: int)
    requires 0 <= j < m
    ensures Below(x + 1, m, j) == Below(x, m, j) + (if x % m == j then 1 else 0)
  {
    var y := x - j + m - 1;
    var q, r := y / m, y % m;
    assert y == q * m + r;
    if r == m - 1 {
      assert y + 1 == (q + 1) * m + 0;
      DivUnique(y + 1, m, q + 1, 0);
      assert x == q * m + j;
      DivUnique(x, m, q, j);
    } else {
      DivUnique(y + 1, m, q, r + 1);
      if x % m == j {
        var p := x / m;
        assert y == p * m + (m - 1);
        DivUnique(y, m, p, m - 1);
      }
    }
  }

  lemma {:induction false} TurnsCounted(start: int, w: nat, pool: seq<UserId>, live: set<UserId>, j: nat)
    requires NoRepeats(pool) && j < |LiveMembers(pool, live)|
    ensures var members := LiveMembers(pool, live);
            Turns(start, w, pool, live, members[j]) == Below(start + w, |members|, j) - Below(start, |members|, j)
  {
    if w > 0 {
      var members := LiveMembers(pool, live);
      var x := start + w - 1;
      TurnsCounted(start, w - 1, pool, live, j);
      LiveMembersProperties(pool, live);
      NonNegModIsResidue(x, |members|);
      BelowStep(x, |members|, j);
      assert Pick(x, pool, live) == Some(members[j]) <==> x % |members| == j;
    }
  }

  lemma DivSpread(a: int, w: nat, m: int)
    requires m > 0
    ensures w / m <= (a + w) / m - a / m <= w / m + (if w % m == 0 then 0 else 1)
  {
    var q, r, p, s := a / m, a % m, w / m, w % m;
    assert a + w == (q + p) * m + (r + s) by { assert (q + p) * m == q * m + p * m; }
    if r + s < m {
      DivUnique(a + w, m, q + p, r + s);
    } else {
      assert a + w == (q + p + 1) * m + (r + s - m) by { assert (q + p + 1) * m == (q + p) * m + m; }
      DivUnique(a + w, m, q + p + 1, r + s - m);
    }
  }

  /**
   Any window of w consecutive tickets gives each live member floor(w/m) or ceil(w/m) turns, m being the number of
   live members, and gives nobody else any.
   */
  lemma RotationIsFair(start: int, w: nat, pool: seq<UserId>, live: set<UserId>, user: UserId)
    requires NoRepeats(pool)
    ensures var m := |LiveMembers(pool, live)|;
            if user in pool && user in live
            then m > 0 && w / m <= Turns(start, w, pool, live, user) <= w / m + (if w % m == 0 then 0 else 1)
            else Turns(start, w, pool, live, user) == 0
  {
    var members := LiveMembers(pool, live);
    LiveMembersProperties(pool, live);
    if user in pool && user in live {
      var j :| 0 <= j < |members| && members[j] == user;
      TurnsCounted(start, w, pool, live, j);
      DivSpread(start - j + |members| - 1, w, |members|);
    } else {
      NoTurns(start, w, pool, live, user);
    }
  }

  lemma {:induction false} NoTurns(start: int, w: nat, pool: seq<UserId>, live: set<UserId>, user: UserId)
    requires user !in LiveMembers(pool, live)
    ensures Turns(start, w, pool, live, user) == 0
  {
    if w > 0 {
      NoTurns(start, w - 1, pool, live, user);
    }
  }
}
