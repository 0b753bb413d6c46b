// How long a refresh token is good for: until its lifetime is over, unless something took it back.
module TokenLifetime {
  import opened Options
  import opened Tokens
  import opened AuthRouter
  import opened AuthRuns

  // Whose token it is, and from when until when.
  datatype Grant = Grant(user: nat, tenant: nat, family: nat, issued: int, until: int)

  predicate Bears(r: Record, g: Grant) {
    && r.user == g.user && r.tenant == g.tenant && r.family == g.family
    && r.issuedAt == g.issued && r.expiresAt == g.until
  }

  // Stored, not taken back, and not over.
  predicate Usable(t: Table, hash: string, until: int, now: int) {
    hash in t && t[hash].revokedAt.None? && now < until
  }

  // The operation gives out the token: a login for itself, a refresh in exchange for a usable one.
  predicate Mints(w: World, op: Op, hash: string, g: Grant) {
    match op
    case Login(user, tenant, family, drawn, now, ttl) =>
      drawn.hash == hash && g == Grant(user, tenant, family, now, now + ttl)
    case Refresh(prior, drawn, now, ttl) =>
      && drawn.hash == hash && prior in w.table && Usable(w.table, prior, w.table[prior].expiresAt, now)
      && g == Grant(w.table[prior].user, w.table[prior].tenant, w.table[prior].family, now, now + ttl)
    case _ => false
  }

  lemma MintedIsStored(w: World, op: Op, hash: string, g: Grant)
    requires Invariant(w) && Draws(w, op) && Mints(w, op, hash, g)
    ensures var t := Apply(w, op).table;
            hash in t && Bears(t[hash], g) && t[hash].revokedAt.None? && hash in Apply(w, op).hashes
  {
    hide RevokeFamily, OneActivePerFamily, AcceptedOnce;
  }

  // What a token says is never rewritten.
  ghost predicate Faithful(w: World, hash: string, g: Grant) {
    hash in w.hashes && (hash in w.table ==> Bears(w.table[hash], g))
  }

  lemma StepKeepsGrant(w: World, op: Op, hash: string, g: Grant)
    requires Draws(w, op) && Faithful(w, hash, g) && Invariant(w)
    ensures Faithful(Apply(w, op), hash, g)
  {
    hide OneActivePerFamily, AcceptedOnce;
  }

  lemma {:induction false} GrantsAreKept(w: World, ops: seq<Op>, hash: string, g: Grant)
    requires Invariant(w) && DrawsThroughout(w, ops) && Faithful(w, hash, g)
    ensures Invariant(Run(w, ops)) && Faithful(Run(w, ops), hash, g)
  {
    hide Invariant, Apply, Draws, Faithful;
    if ops != [] {
      var n := |ops| - 1;
      assert forall i :: 0 <= i < n ==> ops[..n][..i] == ops[..i];
      GrantsAreKept(w, ops[..n], hash, g);
      assert Draws(Run(w, ops[..n]), ops[n]);
      StepKeepsInvariant(Run(w, ops[..n]), ops[n]);
      StepKeepsGrant(Run(w, ops[..n]), ops[n], hash, g);
    }
  }

  // The record a refresh gives out in exchange for a token of this grant.
  function Successor(g: Grant, drawn: Drawn, now: int, ttl: int): Record {
    Record(drawn.id, g.user, g.tenant, drawn.hash, g.family, now, now + ttl, None, None)
  }

  // What an accepted refresh leaves: the old row retired and pointing at the new one, the new row, and every
  // other row as it was.
  ghost predicate Exchanged(before: Table, after: Table, hash: string, drawn: Drawn, next: Record, now: int) {
    && after.Keys == before.Keys + {drawn.hash} && hash in before
    && after[drawn.hash] == next
    && after[hash] == before[hash].(revokedAt := Some(now), replacedBy := Some(drawn.id))
    && forall h :: h in before && h != hash && h != drawn.hash ==> after[h] == before[h]
  }

  lemma RefreshOfGrant(w: World, hash: string, g: Grant, drawn: Drawn, now: int, ttl: int)
    requires Invariant(w) && Faithful(w, hash, g) && drawn.hash !in w.hashes
    ensures var (t, v) := Rotate(w.table, hash, drawn, now, ttl);
            && (v.Issued? <==> Usable(w.table, hash, g.until, now))
            && (v.Issued? ==> v.record == Successor(g, drawn, now, ttl)
                              && Exchanged(w.table, t, hash, drawn, v.record, now))
  {
    hide RevokeFamily, OneActivePerFamily, AcceptedOnce;
  }

  // A TOKEN IS GOOD UNTIL ITS LIFETIME IS OVER. Whatever happens after it was given out, a refresh with it is accepted
  // if and only if it is still stored, was not taken back, and its lifetime is not over; then a new one is
  // given out to the same user in the same tenant and family, with the lifetime of that refresh.
  lemma GoodUntilExpiry(w: World, mint: Op, ops: seq<Op>, hash: string, g: Grant, drawn: Drawn, now: int, ttl: int)
    requires Invariant(w) && Draws(w, mint) && Mints(w, mint, hash, g) && DrawsThroughout(Apply(w, mint), ops)
    requires drawn.hash !in Run(Apply(w, mint), ops).hashes
    ensures var end := Run(Apply(w, mint), ops);
            var (t, v) := Rotate(end.table, hash, drawn, now, ttl);
            && (v.Issued? <==> Usable(end.table, hash, g.until, now))
            && (v.Issued? ==> v.record == Successor(g, drawn, now, ttl)
                              && Exchanged(end.table, t, hash, drawn, v.record, now))
  {
    hide Invariant, Apply, Draws, Mints, DrawsThroughout, Rotate, Usable, Exchanged;
    MintedIsStored(w, mint, hash, g);
    StepKeepsInvariant(w, mint);
    GrantsAreKept(Apply(w, mint), ops, hash, g);
    RefreshOfGrant(Run(Apply(w, mint), ops), hash, g, drawn, now, ttl);
  }

  // ---- What can take a token back --------------------------------------------------------------------

  // A refresh with a token of its family (itself, or one that was already exchanged), its logout, or a purge after
  // its lifetime.
  predicate Touches(t: Table, op: Op, hash: string, g: Grant) {
    match op
    case Login(_, _, _, _, _, _) => false
    case Refresh(x, _, _, _) => x in t && t[x].family == g.family
    case Logout(x, _) => x == hash
    case PurgeAt(now) => now >= g.until
  }

  ghost predicate Standing(w: World, hash: string, g: Grant) {
    hash in w.hashes && hash in w.table && Bears(w.table[hash], g) && w.table[hash].revokedAt.None?
  }

  lemma StepLeavesStanding(w: World, op: Op, hash: string, g: Grant)
    requires Invariant(w) && Draws(w, op) && Standing(w, hash, g) && !Touches(w.table, op, hash, g)
    ensures Standing(Apply(w, op), hash, g)
  {
    hide OneActivePerFamily, AcceptedOnce;
  }

  lemma {:induction false} UntouchedStands(w: World, ops: seq<Op>, hash: string, g: Grant)
    requires Invariant(w) && DrawsThroughout(w, ops) && Standing(w, hash, g)
    requires forall i :: 0 <= i < |ops| ==> !Touches(Run(w, ops[..i]).table, ops[i], hash, g)
    ensures Invariant(Run(w, ops)) && Standing(Run(w, ops), hash, g)
  {
    hide Invariant, Apply, Draws, Standing, Touches;
    if ops != [] {
      var n := |ops| - 1;
      assert forall i :: 0 <= i < n ==> ops[..n][..i] == ops[..i];
      UntouchedStands(w, ops[..n], hash, g);
      assert Draws(Run(w, ops[..n]), ops[n]);
      StepKeepsInvariant(Run(w, ops[..n]), ops[n]);
      StepLeavesStanding(Run(w, ops[..n]), ops[n], hash, g);
    }
  }

  // A token nothing took back is accepted, up to the last instant of its lifetime.
  lemma UntouchedIsAccepted(w: World, mint: Op, ops: seq<Op>, hash: string, g: Grant, drawn: Drawn, now: int, ttl: int)
    requires Invariant(w) && Draws(w, mint) && Mints(w, mint, hash, g) && DrawsThroughout(Apply(w, mint), ops)
    requires var first := Apply(w, mint);
             forall i :: 0 <= i < |ops| ==> !Touches(Run(first, ops[..i]).table, ops[i], hash, g)
    requires drawn.hash !in Run(Apply(w, mint), ops).hashes && now < g.until
    ensures Rotate(Run(Apply(w, mint), ops).table, hash, drawn, now, ttl).1 == Issued(Successor(g, drawn, now, ttl))
  {
    hide Invariant, Apply, Draws, Mints, DrawsThroughout, Rotate, Exchanged, Touches;
    MintedIsStored(w, mint, hash, g);
    StepKeepsInvariant(w, mint);
    UntouchedStands(Apply(w, mint), ops, hash, g);
    GoodUntilExpiry(w, mint, ops, hash, g, drawn, now, ttl);
  }

  // ---- The same of the endpoints -----------------------------------------------------------------------

  // The request gives out the token: a good login of an active user, or a refresh of theirs.
  predicate GivesOut(s: Site, q: Request, hash: string, g: Grant) {
    && g.user in s.users && s.users[g.user].active && s.users[g.user].tenant == g.tenant
    && match q {
         case SignIn(user, passwordOk, family, drawn, now, ttl) =>
           passwordOk && drawn.hash == hash && g == Grant(user, g.tenant, family, now, now + ttl)
         case Exchange(prior, drawn, now, ttl) =>
           && drawn.hash == hash && prior in s.world.table
           && Usable(s.world.table, prior, s.world.table[prior].expiresAt, now)
           && g == Grant(s.world.table[prior].user, g.tenant, s.world.table[prior].family, now, now + ttl)
         case _ => false
       }
  }

  lemma GivenOutIsMinted(s: Site, q: Request, hash: string, g: Grant)
    requires Sound(s) && Possible(s, q) && GivesOut(s, q, hash, g)
    ensures |StoreOps(s, q)| == 1 && Mints(s.world, StoreOps(s, q)[0], hash, g)
  {
    hide RevokeFamily, OneActivePerFamily, AcceptedOnce;
  }

  // A login gives out a token if and only if the password is right and the user active; it is the user's, in
  // their tenant, and lives as long as the call says.
  lemma LoginGivesOut(t: Table, users: map<nat, User>, user: nat, passwordOk: bool, family: nat, drawn: Drawn, now: int,
                      ttl: int)
    ensures var (after, reply) := LoginOutcome(t, users, user, passwordOk, family, drawn, now, ttl);
            if user in users && users[user].active && passwordOk then
              var next := Record(drawn.id, user, users[user].tenant, drawn.hash, family, now, now + ttl, None, None);
              reply == Tokens(next) && after == t[drawn.hash := next]
            else reply == Unauthorized(BadCredentials) && after == t
  {
  }

  // THE ENDPOINT HONOURS ITS TOKENS. Whatever requests follow the one that gave the token out, a refresh with it is
  // answered with a new one if and only if it is still stored, was not taken back, its lifetime is not over
  // and its user is active.
  lemma EndpointHonoursTokens(
    s: Site, q: Request, qs: seq<Request>, hash: string, g: Grant, drawn: Drawn, now: int, ttl: int)
    requires Sound(s) && Possible(s, q) && GivesOut(s, q, hash, g) && PossibleThroughout(Serve(s, q), qs)
    requires drawn.hash !in ServeAll(Serve(s, q), qs).world.hashes
    ensures var end := ServeAll(Serve(s, q), qs);
            var (t, reply) := Outcome(end.world.table, end.users, hash, drawn, now, ttl);
            && (reply.Tokens? <==>
                  Usable(end.world.table, hash, g.until, now) && g.user in end.users && end.users[g.user].active)
            && (reply.Tokens? ==>
                  reply.record == Successor(g, drawn, now, ttl)
                  && Exchanged(end.world.table, t, hash, drawn, reply.record, now))
  {
    hide Invariant, TenantsAgree, Serve, Apply, StoreOps, Possible, DrawsThroughout, Rotate, Outcome, Mints, Exchanged;
    hide GivesOut, Draws;
    GivenOutIsMinted(s, q, hash, g);
    ServedByStore(s, q);
    ServeKeepsSound(s, q);
    MintedIsStored(s.world, StoreOps(s, q)[0], hash, g);
    var first, end := Serve(s, q), ServeAll(Serve(s, q), qs);
    RunsAreStoreRuns(first, qs);
    GrantsAreKept(first.world, AllStoreOps(first, qs), hash, g);
    EndpointRefresh(end, hash, g, drawn, now, ttl);
  }

  lemma EndpointRefresh(s: Site, hash: string, g: Grant, drawn: Drawn, now: int, ttl: int)
    requires Sound(s) && Faithful(s.world, hash, g) && drawn.hash !in s.world.hashes
    ensures var (t, reply) := Outcome(s.world.table, s.users, hash, drawn, now, ttl);
            && (reply.Tokens? <==>
                  Usable(s.world.table, hash, g.until, now) && g.user in s.users && s.users[g.user].active)
            && (reply.Tokens? ==>
                  reply.record == Successor(g, drawn, now, ttl)
                  && Exchanged(s.world.table, t, hash, drawn, reply.record, now))
  {
    hide Rotate, Outcome, Exchanged, OneActivePerFamily, AcceptedOnce, TenantsAgree;
    RefreshRefinesRotate(s.world.table, s.users, hash, drawn, now, ttl);
    RefreshOfGrant(s.world, hash, g, drawn, now, ttl);
  }

  // WHAT A REFUSED REFRESH LEAVES. An unknown token changes nothing; one that was taken back takes back every other
  // token of its family; one whose lifetime is over is taken back itself.
  lemma RefusalMeans(t: Table, hash: string, drawn: Drawn, now: int, ttl: int)
    ensures var (after, v) := Rotate(t, hash, drawn, now, ttl);
            && (hash !in t ==> v == UnknownToken && after == t)
            && (hash in t && t[hash].revokedAt.Some? ==>
                  && v == ReuseDetected && after.Keys == t.Keys
                  && forall h :: h in t ==>
                       after[h] == if t[h].family == t[hash].family && t[h].revokedAt.None?
                                   then t[h].(revokedAt := Some(now)) else t[h])
            && (hash in t && t[hash].revokedAt.None? && now >= t[hash].expiresAt ==>
                  v == TokenExpired && after == t[hash := t[hash].(revokedAt := Some(now))])
  {
  }

  // What a logout leaves: the token taken back if it was not, and nothing else touched.
  lemma LogoutMeans(t: Table, hash: string, now: int)
    ensures var (after, ok) := Revoke(t, hash, now);
            && (ok <==> hash in t && t[hash].revokedAt.None?)
            && after == if ok then t[hash := t[hash].(revokedAt := Some(now))] else t
  {
  }
}
