// The same rules as transactions on a database session: refresh and logout.
module AuthRouter {
  import opened Options
  import opened Tokens

  datatype User = User(tenant: nat, active: bool)

  // One request's session: what is committed, and what this transaction has changed so far.
  class Session {
    var committed: Table
    var working: Table

    constructor (table: Table)
      ensures committed == working == table
    {
      committed, working := table, table;
    }

    method Commit()
      modifies this
      ensures committed == working == old(working)
    {
      committed := working;
    }

    method Rollback()
      modifies this
      ensures committed == working == old(committed)
    {
      working := committed;
    }

    method Store(hash: string, record: Record)
      modifies this`working
      ensures working == old(working)[hash := record]
    {
      working := working[hash := record];
    }
  }

  // A 200 with a new pair, or the 401 the handler raises.
  datatype Reply = Tokens(record: Record) | Unauthorized(why: Reason)
  datatype Reason = InvalidToken | Reused | HasExpired | NoActiveUser | BadCredentials

  // _revoke_family: the rows are selected first, then written one by one.
  method RevokeRows(s: Session, family: nat, now: int)
    modifies s`working
    ensures s.working == RevokeFamily(old(s.working), family, now)
  {
    hide RevokeAmong, RevokeFamily;
    ghost var before := s.working;
    var todo := ActiveIn(s.working, family);
    ghost var rows := todo;
    assert rows - todo == {};
    VisitNone(before, family, now);
    while todo != {}
      invariant todo <= rows && s.working == RevokeAmong(before, rows - todo, family, now)
      decreases |todo|
    {
      var h :| h in todo;
      VisitRow(before, rows - todo, h, family, now);
      assert rows - todo + {h} == rows - (todo - {h});
      s.Store(h, Retire(s.working[h], now));
      todo := todo - {h};
    }
    assert rows - todo == rows;
    VisitHits(before, family, now);
  }

  // Visiting only the rows to be revoked is visiting all of them.
  lemma VisitHits(t: Table, family: nat, now: int)
    ensures RevokeAmong(t, ActiveIn(t, family), family, now) == RevokeFamily(t, family, now)
  {
  }

  // The handler. It commits before raising where the change must survive the rollback.
  method RefreshHandler(s: Session, users: map<nat, User>, hash: string, drawn: Drawn, now: int, ttl: int)
    returns (reply: Reply)
    requires s.committed == s.working && drawn.hash !in s.working
    modifies s
    ensures (reply, s.committed, s.working) == HandlerEffect(old(s.working), users, hash, drawn, now, ttl)
  {
    hide RevokeFamily;
    if hash !in s.working {
      return Unauthorized(InvalidToken);
    }
    var record := s.working[hash];
    if record.revokedAt.Some? {
      RevokeRows(s, record.family, now);
      s.Commit();
      return Unauthorized(Reused);
    }
    if record.expiresAt <= now {
      s.Store(hash, Retire(record, now));
      s.Commit();
      return Unauthorized(HasExpired);
    }
    if record.user !in users || !users[record.user].active {
      return Unauthorized(NoActiveUser);
    }
    var tokens := Issue(record.user, users[record.user].tenant, record.family, drawn, now, ttl);
    s.Store(hash, Retire(record, now).(replacedBy := Some(tokens.id)));
    s.Store(tokens.hash, tokens);
    reply := Tokens(tokens);
  }

  // Reply, committed rows and pending rows the handler leaves behind.
  function HandlerEffect(t: Table, users: map<nat, User>, hash: string, drawn: Drawn, now: int, ttl: int)
    : (Reply, Table, Table)
  {
    if hash !in t then (Unauthorized(InvalidToken), t, t)
    else
      var record := t[hash];
      if record.revokedAt.Some? then
        var after := RevokeFamily(t, record.family, now);
        (Unauthorized(Reused), after, after)
      else if record.expiresAt <= now then
        (Unauthorized(HasExpired), t[hash := Retire(record, now)], t[hash := Retire(record, now)])
      else if record.user !in users || !users[record.user].active then (Unauthorized(NoActiveUser), t, t)
      else
        var tokens := Issue(record.user, users[record.user].tenant, record.family, drawn, now, ttl);
        (Tokens(tokens), t, t[hash := Retire(record, now).(replacedBy := Some(tokens.id))][tokens.hash := tokens])
  }

  // get_session around the handler: commit on return, roll back on an exception.
  method RefreshRequest(s: Session, users: map<nat, User>, hash: string, drawn: Drawn, now: int, ttl: int)
    returns (reply: Reply)
    requires s.committed == s.working && drawn.hash !in s.working
    modifies s
    ensures s.committed == s.working
    ensures (s.committed, reply) == Outcome(old(s.committed), users, hash, drawn, now, ttl)
  {
    reply := RefreshHandler(s, users, hash, drawn, now, ttl);
    if reply.Unauthorized? {
      s.Rollback();
    } else {
      s.Commit();
    }
  }

  // What a request leaves in the database, and what it answers.
  function Outcome(t: Table, users: map<nat, User>, hash: string, drawn: Drawn, now: int, ttl: int): (Table, Reply) {
    var (reply, committed, working) := HandlerEffect(t, users, hash, drawn, now, ttl);
    (if reply.Unauthorized? then committed else working, reply)
  }

  // What a login leaves, and what it answers; `passwordOk` is the verdict on the password.
  function LoginOutcome(
    t: Table, users: map<nat, User>, user: nat, passwordOk: bool, family: nat, drawn: Drawn, now: int, ttl: int)
    : (Table, Reply)
  {
    if user in users && passwordOk && users[user].active then
      var tokens := Issue(user, users[user].tenant, family, drawn, now, ttl);
      (t[tokens.hash := tokens], Tokens(tokens))
    else (t, Unauthorized(BadCredentials))
  }

  method LoginRequest(
    s: Session, users: map<nat, User>, user: nat, passwordOk: bool, family: nat, drawn: Drawn, now: int, ttl: int)
    returns (reply: Reply)
    requires s.committed == s.working
    modifies s
    ensures s.committed == s.working
    ensures (s.committed, reply) == LoginOutcome(old(s.committed), users, user, passwordOk, family, drawn, now, ttl)
  {
    if user !in users || !passwordOk || !users[user].active {
      s.Rollback();
      return Unauthorized(BadCredentials);
    }
    var tokens := Issue(user, users[user].tenant, family, drawn, now, ttl);
    s.Store(tokens.hash, tokens);
    s.Commit();
    reply := Tokens(tokens);
  }

  method LogoutRequest(s: Session, hash: string, now: int)
    requires s.committed == s.working
    modifies s
    ensures s.committed == s.working == Revoke(old(s.committed), hash, now).0
  {
    if hash in s.working && s.working[hash].revokedAt.None? {
      s.Store(hash, Retire(s.working[hash], now));
    }
    s.Commit();
  }

  // ---- Refinement of the in-memory store -------------------------------------------------------------

  // The reply that corresponds to the store's verdict.
  function ReplyFor(v: Verdict): Reply {
    match v
    case Issued(record) => Tokens(record)
    case UnknownToken => Unauthorized(InvalidToken)
    case ReuseDetected => Unauthorized(Reused)
    case TokenExpired => Unauthorized(HasExpired)
  }

  // Rows name users of their own tenant.
  ghost predicate TenantsAgree(t: Table, users: map<nat, User>) {
    forall h :: h in t && t[h].user in users ==> users[t[h].user].tenant == t[h].tenant
  }

  predicate UserIsActive(t: Table, users: map<nat, User>, hash: string) {
    hash in t && t[hash].user in users && users[t[hash].user].active
  }

  // ENDPOINT REFINEMENT. A refresh request leaves the table and gives the answer of the store's
  // rotate, exactly unless the token is usable and its user is gone or inactive; then it refuses
  // and changes nothing.
  lemma RefreshRefinesRotate(t: Table, users: map<nat, User>, hash: string, drawn: Drawn, now: int, ttl: int)
    requires TenantsAgree(t, users) && drawn.hash !in t
    ensures Outcome(t, users, hash, drawn, now, ttl)
            == (Rotate(t, hash, drawn, now, ttl).0, ReplyFor(Rotate(t, hash, drawn, now, ttl).1))
       <==> (Rotate(t, hash, drawn, now, ttl).1.Issued? ==> UserIsActive(t, users, hash))
    ensures Rotate(t, hash, drawn, now, ttl).1.Issued? && !UserIsActive(t, users, hash) ==>
              Outcome(t, users, hash, drawn, now, ttl) == (t, Unauthorized(NoActiveUser))
  {
    hide RevokeFamily;
  }

  // The revocation after a replay survives the rollback that the refusal causes: the committed
  // table has no active token of the family left.
  lemma ReplayRevocationSurvives(t: Table, users: map<nat, User>, hash: string, drawn: Drawn, now: int, ttl: int)
    requires Outcome(t, users, hash, drawn, now, ttl).1 == Unauthorized(Reused)
    ensures hash in t && ActiveIn(Outcome(t, users, hash, drawn, now, ttl).0, t[hash].family) == {}
  {
  }
}
