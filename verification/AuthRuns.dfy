// Runs of login, refresh and logout requests, with users coming, going and being deactivated in between.
module AuthRuns {
  import opened Options
  import opened Tokens
  import opened AuthRouter

  // The committed table with its history, and the users.
  datatype Site = Site(world: World, users: map<nat, User>)

  datatype Request =
    | SignIn(user: nat, passwordOk: bool, family: nat, drawn: Drawn, now: int, ttl: int)
    | Exchange(hash: string, drawn: Drawn, now: int, ttl: int)
    | SignOut(hash: string, now: int)
    | AddUser(user: nat, tenant: nat)
    | SetActive(user: nat, active: bool)
    | RemoveUser(user: nat)

  function Serve(s: Site, q: Request): Site {
    match q
    case SignIn(user, passwordOk, family, drawn, now, ttl) =>
      var (t, reply) := LoginOutcome(s.world.table, s.users, user, passwordOk, family, drawn, now, ttl);
      if reply.Unauthorized? then s.(world := s.world.(table := t))
      else s.(world := World(t, s.world.hashes + {drawn.hash}, s.world.families + {family}, s.world.accepted))
    case Exchange(hash, drawn, now, ttl) =>
      var (t, reply) := Outcome(s.world.table, s.users, hash, drawn, now, ttl);
      if reply == Unauthorized(NoActiveUser) then s.(world := s.world.(table := t))
      else s.(world := World(t, s.world.hashes + {drawn.hash}, s.world.families, Taken(s.world.accepted, hash, reply)))
    case SignOut(hash, now) => s.(world := s.world.(table := Revoke(s.world.table, hash, now).0))
    case AddUser(user, tenant) => if user in s.users then s else s.(users := s.users[user := User(tenant, true)])
    case SetActive(user, active) =>
      if user in s.users then s.(users := s.users[user := s.users[user].(active := active)]) else s
    case RemoveUser(user) => s.(users := s.users - {user})
  }

  // The accepted tokens after a refresh was answered.
  function Taken(accepted: seq<Accepted>, hash: string, reply: Reply): seq<Accepted> {
    match reply
    case Tokens(record) => accepted + [Accepted(hash, record.family)]
    case Unauthorized(_) => accepted
  }

  function ServeAll(s: Site, qs: seq<Request>): Site {
    if qs == [] then s else Serve(ServeAll(s, qs[..|qs| - 1]), qs[|qs| - 1])
  }

  // Random tokens and family ids do not repeat, and a new user's id is on no token.
  ghost predicate Possible(s: Site, q: Request) {
    match q
    case SignIn(_, _, family, drawn, _, _) => drawn.hash !in s.world.hashes && family !in s.world.families
    case Exchange(_, drawn, _, _) => drawn.hash !in s.world.hashes
    case AddUser(user, _) => forall h :: h in s.world.table ==> s.world.table[h].user != user
    case _ => true
  }

  ghost predicate PossibleThroughout(s: Site, qs: seq<Request>) {
    forall i :: 0 <= i < |qs| ==> Possible(ServeAll(s, qs[..i]), qs[i])
  }

  // The operation of the in-memory store the request amounts to, if any.
  function StoreOps(s: Site, q: Request): seq<Op> {
    match q
    case SignIn(user, passwordOk, family, drawn, now, ttl) =>
      if user in s.users && passwordOk && s.users[user].active
      then [Login(user, s.users[user].tenant, family, drawn, now, ttl)] else []
    case Exchange(hash, drawn, now, ttl) =>
      if Rotate(s.world.table, hash, drawn, now, ttl).1.Issued? && !UserIsActive(s.world.table, s.users, hash) then []
      else [Refresh(hash, drawn, now, ttl)]
    case SignOut(hash, now) => [Logout(hash, now)]
    case _ => []
  }

  function AllStoreOps(s: Site, qs: seq<Request>): seq<Op> {
    if qs == [] then []
    else AllStoreOps(s, qs[..|qs| - 1]) + StoreOps(ServeAll(s, qs[..|qs| - 1]), qs[|qs| - 1])
  }

  ghost predicate Sound(s: Site) { Invariant(s.world) && TenantsAgree(s.world.table, s.users) }

  // One request is at most one operation of the store.
  lemma ServedByStore(s: Site, q: Request)
    requires Sound(s) && Possible(s, q)
    ensures var ops := StoreOps(s, q);
            && |ops| <= 1
            && (ops == [] ==> Serve(s, q).world == s.world)
            && (ops != [] ==> Serve(s, q).world == Apply(s.world, ops[0]) && Draws(s.world, ops[0]))
  {
    hide RevokeFamily, OneActivePerFamily, AcceptedOnce;
    match q
    case Exchange(hash, drawn, now, ttl) =>
      RefreshRefinesRotate(s.world.table, s.users, hash, drawn, now, ttl);
    case _ =>
  }

  lemma ServeKeepsTenants(s: Site, q: Request)
    requires Sound(s) && Possible(s, q)
    ensures TenantsAgree(Serve(s, q).world.table, Serve(s, q).users)
  {
    hide OneActivePerFamily, AcceptedOnce;
  }

  lemma ServeKeepsSound(s: Site, q: Request)
    requires Sound(s) && Possible(s, q)
    ensures Sound(Serve(s, q))
  {
    hide Invariant, TenantsAgree, Serve, Apply, StoreOps;
    ServedByStore(s, q);
    ServeKeepsTenants(s, q);
    if StoreOps(s, q) != [] { StepKeepsInvariant(s.world, StoreOps(s, q)[0]); }
  }

  // THE ENDPOINT REFINES THE STORE, run for run: whatever requests are served, the committed table and what
  // was accepted are those of some run of the in-memory store with the same draws.
  lemma {:induction false} RunsAreStoreRuns(s: Site, qs: seq<Request>)
    requires Sound(s) && PossibleThroughout(s, qs)
    ensures Sound(ServeAll(s, qs))
    ensures ServeAll(s, qs).world == Run(s.world, AllStoreOps(s, qs)) && DrawsThroughout(s.world, AllStoreOps(s, qs))
  {
    hide Sound, Serve, Apply, StoreOps, Possible, DrawsThroughout;
    if qs == [] {
      NoDraws(s.world);
    } else {
      var n := |qs| - 1;
      assert forall i :: 0 <= i < n ==> qs[..n][..i] == qs[..i];
      RunsAreStoreRuns(s, qs[..n]);
      var before, ops := ServeAll(s, qs[..n]), StoreOps(ServeAll(s, qs[..n]), qs[n]);
      ServedByStore(before, qs[n]);
      ServeKeepsSound(before, qs[n]);
      if ops == [] {
        assert AllStoreOps(s, qs) == AllStoreOps(s, qs[..n]);
      } else {
        assert ops == [ops[0]];
        OneMoreOp(s.world, AllStoreOps(s, qs[..n]), ops[0]);
      }
    }
  }

  lemma NoDraws(w: World)
    ensures DrawsThroughout(w, [])
  {
  }

  lemma OneMoreOp(w: World, ops: seq<Op>, op: Op)
    requires DrawsThroughout(w, ops) && Draws(Run(w, ops), op)
    ensures Run(w, ops + [op]) == Apply(Run(w, ops), op) && DrawsThroughout(w, ops + [op])
  {
    hide Apply, Draws;
    var more := ops + [op];
    assert more[..|ops|] == ops;
    forall i | 0 <= i < |more|
      ensures Draws(Run(w, more[..i]), more[i])
    {
      assert more[..i] == ops[..i];
    }
  }

  // So what holds of the store holds of the endpoint: a family without an active token in the committed table
  // never gets another one accepted, whatever requests follow.
  lemma ClosedFamiliesStayClosed(s: Site, qs: seq<Request>, family: nat)
    requires Sound(s) && PossibleThroughout(s, qs) && Dead(s.world, family)
    ensures var end := ServeAll(s, qs).world;
            && s.world.accepted <= end.accepted
            && forall i :: |s.world.accepted| <= i < |end.accepted| ==> end.accepted[i].family != family
  {
    hide Invariant, TenantsAgree, Dead, Serve, Apply, StoreOps, Possible, DrawsThroughout;
    RunsAreStoreRuns(s, qs);
    DeadForever(s.world, AllStoreOps(s, qs), family);
  }

  lemma EmptySiteIsSound(users: map<nat, User>)
    ensures Sound(Site(EMPTY, users))
  {
  }
}
