// Refresh-token families: rotation, reuse detection, logout and purge.
module Tokens {
  import opened Options

  // One stored refresh token. The token itself is never kept, only its hash.
  datatype Record = Record(
    id: nat, user: nat, tenant: nat, hash: string, family: nat,
    issuedAt: int, expiresAt: int, revokedAt: Option<int>, replacedBy: Option<nat>)

  predicate Active(r: Record) { r.revokedAt.None? }

  predicate Expired(r: Record, now: int) { now >= r.expiresAt }

  type Table = map<string, Record>

  // What issue_tokens draws: a row id and the hash of a random token.
  datatype Drawn = Drawn(id: nat, hash: string)

  function Issue(user: nat, tenant: nat, family: nat, drawn: Drawn, now: int, ttl: int): Record {
    Record(drawn.id, user, tenant, drawn.hash, family, now, now + ttl, None, None)
  }

  datatype Verdict = Issued(record: Record) | UnknownToken | ReuseDetected | TokenExpired

  function Retire(r: Record, now: int): Record { r.(revokedAt := Some(now)) }

  predicate Hit(r: Record, family: nat) { r.family == family && Active(r) }

  function RevokeFamily(t: Table, family: nat, now: int): Table {
    map h | h in t :: if Hit(t[h], family) then Retire(t[h], now) else t[h]
  }

  // The revocation when only some of the rows have been visited.
  function RevokeAmong(t: Table, visited: set<string>, family: nat, now: int): (r: Table)
    ensures r.Keys == t.Keys
  {
    map h | h in t :: if h in visited && Hit(t[h], family) then Retire(t[h], now) else t[h]
  }

  lemma VisitRow(t: Table, visited: set<string>, h: string, family: nat, now: int)
    requires h in t && h !in visited
    ensures RevokeAmong(t, visited, family, now)[h] == t[h]
    ensures RevokeAmong(t, visited + {h}, family, now)
         == RevokeAmong(t, visited, family, now)[h := if Hit(t[h], family) then Retire(t[h], now) else t[h]]
    ensures |ActiveIn(t, family) * (visited + {h})| == |ActiveIn(t, family) * visited| + if Hit(t[h], family) then 1 else 0
  {
    var before := ActiveIn(t, family) * visited;
    assert ActiveIn(t, family) * (visited + {h}) == before + if Hit(t[h], family) then {h} else {};
    assert h !in before;
  }

  lemma VisitNone(t: Table, family: nat, now: int)
    ensures RevokeAmong(t, {}, family, now) == t && ActiveIn(t, family) * {} == {}
  {
  }

  lemma VisitAll(t: Table, visited: set<string>, family: nat, now: int)
    requires t.Keys <= visited
    ensures RevokeAmong(t, visited, family, now) == RevokeFamily(t, family, now)
    ensures ActiveIn(t, family) * visited == ActiveIn(t, family)
  {
  }

  function ActiveIn(t: Table, family: nat): set<string> {
    set h | h in t && Hit(t[h], family)
  }

  // What rotate does to the table, and what it answers.
  function Rotate(t: Table, hash: string, drawn: Drawn, now: int, ttl: int): (r: (Table, Verdict)) {
    if hash !in t then (t, UnknownToken)
    else
      var record := t[hash];
      if !Active(record) then (RevokeFamily(t, record.family, now), ReuseDetected)
      else if Expired(record, now) then (t[hash := Retire(record, now)], TokenExpired)
      else
        var next := Issue(record.user, record.tenant, record.family, drawn, now, ttl);
        (t[hash := Retire(record, now).(replacedBy := Some(next.id))][next.hash := next], Issued(next))
  }

  function Revoke(t: Table, hash: string, now: int): (Table, bool) {
    if hash !in t || !Active(t[hash]) then (t, false) else (t[hash := Retire(t[hash], now)], true)
  }

  function Stale(t: Table, now: int): set<string> {
    set h | h in t && Expired(t[h], now)
  }

  function Purge(t: Table, now: int): Table {
    t - Stale(t, now)
  }

  // ---- The in-memory store ----------------------------------------------------------------------

  class TokenFamilyStore {
    const hashOf: string -> string
    var records: Table

    constructor (hashOf: string -> string)
      ensures records == map[] && this.hashOf == hashOf
    {
      this.hashOf := hashOf;
      records := map[];
    }

    method Add(record: Record)
      modifies this
      ensures records == old(records)[record.hash := record]
    {
      records := records[record.hash := record];
    }

    method RevokeAll(family: nat, now: int) returns (revoked: nat)
      modifies this
      ensures records == RevokeFamily(old(records), family, now)
      ensures revoked == |ActiveIn(old(records), family)|
    {
      hide RevokeAmong, RevokeFamily, ActiveIn, Retire, Hit;
      ghost var before := records;
      ghost var done: set<string> := {};
      var todo := records.Keys;
      revoked := 0;
      VisitNone(before, family, now);
      while todo != {}
        invariant todo <= before.Keys && done == before.Keys - todo
        invariant records == RevokeAmong(before, done, family, now)
        invariant revoked == |ActiveIn(before, family) * done|
        decreases |todo|
      {
        var h :| h in todo;
        VisitRow(before, done, h, family, now);
        if Hit(records[h], family) {
          records := records[h := Retire(records[h], now)];
          revoked := revoked + 1;
        }
        todo := todo - {h};
        done := done + {h};
      }
      VisitAll(before, done, family, now);
    }

    method RotateToken(presented: string, drawn: Drawn, now: int, ttl: int) returns (v: Verdict)
      modifies this
      ensures (records, v) == Rotate(old(records), hashOf(presented), drawn, now, ttl)
    {
      var h := hashOf(presented);
      if h !in records {
        return UnknownToken;
      }
      var record := records[h];
      if !Active(record) {
        var n := RevokeAll(record.family, now);
        return ReuseDetected;
      }
      if Expired(record, now) {
        records := records[h := Retire(record, now)];
        return TokenExpired;
      }
      var next := Issue(record.user, record.tenant, record.family, drawn, now, ttl);
      records := records[h := Retire(record, now).(replacedBy := Some(next.id))];
      Add(next);
      v := Issued(next);
    }

    method RevokeToken(token: string, now: int) returns (ok: bool)
      modifies this
      ensures (records, ok) == Revoke(old(records), hashOf(token), now)
    {
      var h := hashOf(token);
      if h !in records || !Active(records[h]) {
        return false;
      }
      records := records[h := Retire(records[h], now)];
      ok := true;
    }

    method PurgeExpired(now: int) returns (purged: nat)
      modifies this
      ensures records == Purge(old(records), now)
      ensures forall h :: h in records <==> h in old(records) && now < old(records)[h].expiresAt
      ensures forall h :: h in records ==> records[h] == old(records)[h]
      ensures purged == |Stale(old(records), now)|
    {
      var stale := set h | h in records && Expired(records[h], now);
      assert stale == Stale(records, now);
      var todo := stale;
      while todo != {}
        invariant todo <= stale && records == old(records) - (stale - todo)
        decreases |todo|
      {
        var h :| h in todo;
        records := records - {h};
        todo := todo - {h};
      }
      purged := |stale|;
    }
  }

  // ---- Runs ---------------------------------------------------------------------------------------

  datatype Op =
    | Login(user: nat, tenant: nat, family: nat, drawn: Drawn, now: int, ttl: int)
    | Refresh(hash: string, drawn: Drawn, now: int, ttl: int)
    | Logout(hash: string, now: int)
    | PurgeAt(now: int)

  // A token some refresh accepted: its hash, and its family.
  datatype Accepted = Accepted(hash: string, family: nat)

  // The table, with the history the guarantees speak of.
  datatype World = World(table: Table, hashes: set<string>, families: set<nat>, accepted: seq<Accepted>)

  const EMPTY: World := World(map[], {}, {}, [])

  // Random tokens and ids do not repeat.
  predicate Draws(w: World, op: Op) {
    match op
    case Login(_, _, family, drawn, _, _) => drawn.hash !in w.hashes && family !in w.families
    case Refresh(_, drawn, _, _) => drawn.hash !in w.hashes
    case _ => true
  }

  function Apply(w: World, op: Op): World {
    match op
    case Login(user, tenant, family, drawn, now, ttl) =>
      World(w.table[drawn.hash := Issue(user, tenant, family, drawn, now, ttl)],
            w.hashes + {drawn.hash}, w.families + {family}, w.accepted)
    case Refresh(hash, drawn, now, ttl) =>
      var (t, v) := Rotate(w.table, hash, drawn, now, ttl);
      World(t, w.hashes + {drawn.hash}, w.families,
            if v.Issued? then w.accepted + [Accepted(hash, v.record.family)] else w.accepted)
    case Logout(hash, now) => w.(table := Revoke(w.table, hash, now).0)
    case PurgeAt(now) => w.(table := Purge(w.table, now))
  }

  function Run(w: World, ops: seq<Op>): World {
    if ops == [] then w else Apply(Run(w, ops[..|ops| - 1]), ops[|ops| - 1])
  }

  ghost predicate DrawsThroughout(w: World, ops: seq<Op>) {
    forall i :: 0 <= i < |ops| ==> Draws(Run(w, ops[..i]), ops[i])
  }

  ghost predicate OneActivePerFamily(t: Table) {
    forall a, b :: a in t && b in t && Active(t[a]) && Active(t[b]) && t[a].family == t[b].family ==> a == b
  }

  ghost predicate AcceptedOnce(w: World) {
    forall i, j :: 0 <= i < j < |w.accepted| ==> w.accepted[i].hash != w.accepted[j].hash
  }

  ghost predicate Invariant(w: World) {
    && w.table.Keys <= w.hashes
    && (forall h :: h in w.table ==> w.table[h].hash == h && w.table[h].family in w.families)
    && OneActivePerFamily(w.table)
    && AcceptedOnce(w)
    && (forall i :: 0 <= i < |w.accepted| ==> w.accepted[i].hash in w.hashes)
    && (forall i :: 0 <= i < |w.accepted| && w.accepted[i].hash in w.table ==> !Active(w.table[w.accepted[i].hash]))
  }

  lemma RefreshKeepsInvariant(w: World, hash: string, drawn: Drawn, now: int, ttl: int)
    requires Invariant(w) && drawn.hash !in w.hashes
    ensures Invariant(Apply(w, Refresh(hash, drawn, now, ttl)))
  {
  }

  lemma StepKeepsInvariant(w: World, op: Op)
    requires Invariant(w) && Draws(w, op)
    ensures Invariant(Apply(w, op))
  {
    match op
    case Refresh(hash, drawn, now, ttl) => RefreshKeepsInvariant(w, hash, drawn, now, ttl);
    case _ =>
  }

  // In every reachable state a family has at most one active token, and no token was ever
  // accepted twice.
  lemma {:induction false} FamiliesStaySound(ops: seq<Op>)
    requires DrawsThroughout(EMPTY, ops)
    ensures Invariant(Run(EMPTY, ops))
  {
    hide Invariant, Apply;
    if ops == [] {
      EmptyIsSound();
    } else {
      var n := |ops| - 1;
      assert forall i :: 0 <= i < n ==> ops[..n][..i] == ops[..i];
      FamiliesStaySound(ops[..n]);
      StepKeepsInvariant(Run(EMPTY, ops[..n]), ops[n]);
    }
  }

  lemma EmptyIsSound()
    ensures Invariant(EMPTY)
  {
  }

  // ---- Closed families ------------------------------------------------------------------------------

  // Every active token of the family has expired by `from`; there may be none.
  ghost predicate Spent(w: World, family: nat, from: int) {
    && family in w.families
    && forall h :: h in w.table && w.table[h].family == family && Active(w.table[h]) ==> w.table[h].expiresAt <= from
  }

  // No active token is left at all.
  ghost predicate Dead(w: World, family: nat) {
    && family in w.families
    && forall h :: h in w.table && w.table[h].family == family ==> !Active(w.table[h])
  }

  function TimeOf(op: Op): int {
    match op
    case Login(_, _, _, _, now, _) => now
    case Refresh(_, _, now, _) => now
    case Logout(_, now) => now
    case PurgeAt(now) => now
  }

  lemma SpentStays(w: World, op: Op, family: nat, from: int)
    requires Invariant(w) && Draws(w, op) && Spent(w, family, from) && TimeOf(op) >= from
    ensures Spent(Apply(w, op), family, from)
    ensures w.accepted <= Apply(w, op).accepted
    ensures forall i :: |w.accepted| <= i < |Apply(w, op).accepted| ==> Apply(w, op).accepted[i].family != family
  {
  }

  // AFTER EXPIRY. Once every active token of a family has expired, no token of it is ever
  // accepted again by a clock that does not run back, purges or not.
  lemma {:induction false} SpentForever(w: World, ops: seq<Op>, family: nat, from: int)
    requires Invariant(w) && DrawsThroughout(w, ops) && Spent(w, family, from)
    requires forall i :: 0 <= i < |ops| ==> TimeOf(ops[i]) >= from
    ensures var end := Run(w, ops);
            && Invariant(end) && Spent(end, family, from) && w.accepted <= end.accepted
            && forall i :: |w.accepted| <= i < |end.accepted| ==> end.accepted[i].family != family
  {
    hide Invariant, Apply, Spent, Draws;
    if ops != [] {
      var n := |ops| - 1;
      assert forall i :: 0 <= i < n ==> ops[..n][..i] == ops[..i];
      SpentForever(w, ops[..n], family, from);
      assert Draws(Run(w, ops[..n]), ops[n]);
      StepKeepsInvariant(Run(w, ops[..n]), ops[n]);
      SpentStays(Run(w, ops[..n]), ops[n], family, from);
    }
  }

  function Earliest(ops: seq<Op>): (t: int)
    ensures forall i :: 0 <= i < |ops| ==> TimeOf(ops[i]) >= t
  {
    if ops == [] then 0
    else
      var t := Earliest(ops[..|ops| - 1]);
      var last := TimeOf(ops[|ops| - 1]);
      if last < t then last else t
  }

  // CLOSED FAMILIES STAY CLOSED, whatever the clock does.
  lemma DeadForever(w: World, ops: seq<Op>, family: nat)
    requires Invariant(w) && DrawsThroughout(w, ops) && Dead(w, family)
    ensures var end := Run(w, ops);
            w.accepted <= end.accepted
            && forall i :: |w.accepted| <= i < |end.accepted| ==> end.accepted[i].family != family
  {
    SpentForever(w, ops, family, Earliest(ops));
  }

  // What closes a family: a detected reuse, an expired refresh, the logout of its active token.
  lemma ReuseClosesFamily(w: World, hash: string, drawn: Drawn, now: int, ttl: int)
    requires Invariant(w) && hash in w.table
    requires Rotate(w.table, hash, drawn, now, ttl).1 in {ReuseDetected, TokenExpired}
    ensures Dead(Apply(w, Refresh(hash, drawn, now, ttl)), w.table[hash].family)
  {
  }

  lemma LogoutClosesFamily(w: World, hash: string, now: int)
    requires Invariant(w) && Revoke(w.table, hash, now).1
    ensures Dead(Apply(w, Logout(hash, now)), w.table[hash].family)
  {
  }

  // A retired token that is still stored is recognised, and answered by closing its family.
  lemma ReplayIsDetected(w: World, hash: string, drawn: Drawn, now: int, ttl: int)
    requires Invariant(w) && hash in w.table
    requires exists i :: 0 <= i < |w.accepted| && w.accepted[i].hash == hash
    ensures Rotate(w.table, hash, drawn, now, ttl).1 == ReuseDetected
  {
  }
}
