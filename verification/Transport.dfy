// Push delivery: who is notified, one notification with bounded retries, and the fan-out.
module Transport {
  import opened Options

  datatype Platform = IOS | ANDROID

  datatype Status = SENT | FAILED | UNREGISTERED | UNCONFIGURED

  datatype Result = Result(status: Status, detail: Option<string>, attempts: int, providerId: Option<string>)

  datatype Recipient = Recipient(user: nat, token: string, platform: Platform, device: nat)

  // ---- One notification -------------------------------------------------------------------------------

  // What one attempt of a transport comes to. Unregistered is the provider saying the token is gone.
  datatype Attempt =
    | Delivered(providerId: string)
    | Unregistered(detail: string)
    | Refused(detail: string, retryable: bool)
    | TimedOut
    | Crashed(detail: string)

  const MAX_ATTEMPTS := 4
  const TIMEOUT_DETAIL := "timed out after 10s"

  // What each attempt, numbered from 1, of one send would come to.
  type Script = nat -> Attempt

  predicate Retryable(a: Attempt) { (a.Refused? && a.retryable) || a.TimedOut? }

  function Conclude(a: Attempt, attempt: nat): Result {
    match a
    case Delivered(id) => Result(SENT, None, attempt, Some(id))
    case Unregistered(detail) => Result(UNREGISTERED, Some(detail), attempt, None)
    case Refused(detail, _) => Result(FAILED, Some(detail), attempt, None)
    case TimedOut => Result(FAILED, Some(TIMEOUT_DETAIL), attempt, None)
    case Crashed(detail) => Result(FAILED, Some(detail), attempt, None)
  }

  // The attempt that decides: the first not worth retrying, or the last one allowed.
  ghost predicate Decides(script: Script, maxAttempts: int, k: int) {
    && 1 <= k <= maxAttempts
    && (forall i :: 1 <= i < k ==> Retryable(script(i)))
    && (k == maxAttempts || !Retryable(script(k)))
  }

  // A transport, counting how often it was asked to send.
  class PushTransport {
    const script: Script
    var sends: nat

    constructor (script: Script)
      ensures this.script == script && sends == 0
    {
      this.script, sends := script, 0;
    }

    // The attempts still to come, numbered from 1.
    function Upcoming(): Script
      reads this
    {
      var made := sends;
      (i: nat) => script(made + i)
    }

    method Send() returns (a: Attempt)
      modifies this
      ensures sends == old(sends) + 1 && a == script(sends)
    {
      sends := sends + 1;
      a := script(sends);
    }
  }

  // RETRIES ARE BOUNDED AND ONLY FOR WHAT IS WORTH THEM. The result is that of the one deciding
  // attempt, and no send follows it.
  method SendWithRetry(transport: PushTransport, maxAttempts: int) returns (r: Result)
    modifies transport
    ensures maxAttempts <= 0 ==> r == Result(FAILED, None, maxAttempts, None) && transport.sends == old(transport.sends)
    ensures maxAttempts > 0 ==>
              var upcoming := old(transport.Upcoming());
              && Decides(upcoming, maxAttempts, r.attempts) && transport.sends == old(transport.sends) + r.attempts
              && r == Conclude(upcoming(r.attempts), r.attempts)
    ensures maxAttempts > 0 ==>
              var upcoming, n := old(transport.Upcoming()), r.attempts;
              && 1 <= n <= maxAttempts
              && (r.status == SENT <==> upcoming(n).Delivered?)
              && (r.status == SENT ==> r.providerId == Some(upcoming(n).providerId) && r.detail == None)
              && (r.status == UNREGISTERED <==> upcoming(n).Unregistered?)
              && (r.status in {SENT, UNREGISTERED, FAILED}) && (r.status != SENT ==> r.providerId == None)
              && (forall i :: 1 <= i < n ==> upcoming(i).TimedOut? || (upcoming(i).Refused? && upcoming(i).retryable))
              && (n < maxAttempts ==> !upcoming(n).TimedOut? && !(upcoming(n).Refused? && upcoming(n).retryable))
  {
    ghost var upcoming := transport.Upcoming();
    var lastDetail := None;
    var attempt := 1;
    while attempt <= maxAttempts
      invariant transport.sends == old(transport.sends) + attempt - 1
      invariant forall i :: 1 <= i < attempt ==> Retryable(upcoming(i))
      invariant attempt == 1 || attempt <= maxAttempts
      invariant attempt == 1 ==> lastDetail == None
    {
      var outcome := transport.Send();
      assert outcome == upcoming(attempt);
      match outcome {
        case Delivered(id) => return Result(SENT, None, attempt, Some(id));
        case Unregistered(detail) => return Result(UNREGISTERED, Some(detail), attempt, None);
        case Refused(detail, retryable) =>
          lastDetail := Some(detail);
          if !retryable || attempt == maxAttempts {
            return Result(FAILED, lastDetail, attempt, None);
          }
        case TimedOut =>
          lastDetail := Some(TIMEOUT_DETAIL);
          if attempt == maxAttempts {
            return Result(FAILED, lastDetail, attempt, None);
          }
        case Crashed(detail) => return Result(FAILED, Some(detail), attempt, None);
      }
      attempt := attempt + 1;
    }
    return Result(FAILED, lastDetail, maxAttempts, None);
  }

  // ---- The fan-out ------------------------------------------------------------------------------------

  // A delivery row.
  datatype Row = Row(
    alarm: nat, user: nat, channel: string, step: nat, status: Status, sentAt: Option<int>, error: Option<string>)

  datatype Report = Report(sent: nat, failed: nat, pruned: nat, results: seq<(Recipient, Result)>)

  function RowFor(alarm: nat, step: nat, to: Recipient, r: Result, now: int): Row {
    Row(alarm, to.user, if to.platform == IOS then "apns" else "fcm", step, r.status,
        if r.status == SENT then Some(now) else None,
        if r.detail == None || r.detail.value == "" then None else Some(Clipped(r.detail.value)))
  }

  // The error column holds a thousand characters.
  function Clipped(s: string): (r: string)
    ensures r <= s && |r| <= 1000 && (r != s ==> |r| == 1000)
  {
    if |s| > 1000 then s[..1000] else s
  }

  function CountOf(results: seq<(Recipient, Result)>, s: Status): (n: nat)
    ensures n <= |results|
  {
    if results == [] then 0
    else CountOf(results[..|results| - 1], s) + if results[|results| - 1].1.status == s then 1 else 0
  }

  // The totals are those of the results, and nothing is counted twice or missed.
  ghost predicate Tallied(r: Report) {
    && r.sent == CountOf(r.results, SENT) && r.pruned == CountOf(r.results, UNREGISTERED)
    && r.sent + r.pruned + r.failed == |r.results|
  }

  function RowsFor(alarm: nat, step: nat, results: seq<(Recipient, Result)>, now: int): (rows: seq<Row>)
    ensures |rows| == |results|
    ensures forall i :: 0 <= i < |rows| ==> rows[i] == RowFor(alarm, step, results[i].0, results[i].1, now)
  {
    if results == [] then []
    else
      var n := |results| - 1;
      RowsFor(alarm, step, results[..n], now) + [RowFor(alarm, step, results[n].0, results[n].1, now)]
  }

  // The phones whose token the provider no longer knows.
  function Gone(results: seq<(Recipient, Result)>): set<nat> {
    if results == [] then {}
    else
      var n := |results| - 1;
      if results[n].1.status == UNREGISTERED then Gone(results[..n]) + {results[n].0.device} else Gone(results[..n])
  }

  predicate TokenGone(x: (Recipient, Result), phone: nat) { x.0.device == phone && x.1.status == UNREGISTERED }

  lemma {:induction false} GoneExactly(results: seq<(Recipient, Result)>, phone: nat)
    ensures phone in Gone(results) <==> exists i :: 0 <= i < |results| && TokenGone(results[i], phone)
  {
    if results != [] {
      var n := |results| - 1;
      GoneExactly(results[..n], phone);
      assert forall i :: 0 <= i < n ==> results[..n][i] == results[i];
      assert TokenGone(results[n], phone) ==> phone in Gone(results);
    }
  }

  // A row tells who was notified of which step and how that went: the time only if it was sent, and at most a
  // thousand characters of what the provider said.
  lemma RowTells(alarm: nat, step: nat, to: Recipient, r: Result, now: int)
    ensures var row := RowFor(alarm, step, to, r, now);
            && row.alarm == alarm && row.step == step && row.user == to.user && row.status == r.status
            && (to.platform == IOS ==> row.channel == "apns") && (to.platform == ANDROID ==> row.channel == "fcm")
            && row.sentAt == (if r.status == SENT then Some(now) else None)
            && (row.error.None? <==> r.detail.None? || r.detail.value == "")
            && (row.error.Some? ==>
                  row.error.value <= r.detail.value && (|r.detail.value| <= 1000 ==> row.error == r.detail)
                  && (|r.detail.value| > 1000 ==> |row.error.value| == 1000))
  {
  }

  lemma OneMoreFromNone(alarm: nat, step: nat, now: int)
    ensures RowsFor(alarm, step, [], now) == [] && Gone([]) == {}
    ensures forall s :: CountOf([], s) == 0
  {
  }

  lemma OneMore(alarm: nat, step: nat, results: seq<(Recipient, Result)>, x: (Recipient, Result), now: int)
    ensures RowsFor(alarm, step, results + [x], now)
         == RowsFor(alarm, step, results, now) + [RowFor(alarm, step, x.0, x.1, now)]
    ensures Gone(results + [x]) == Gone(results) + if x.1.status == UNREGISTERED then {x.0.device} else {}
    ensures forall s :: CountOf(results + [x], s) == CountOf(results, s) + if x.1.status == s then 1 else 0
  {
    assert (results + [x])[..|results|] == results;
  }

  // What the result of one recipient may be.
  ghost predicate Outcome(platforms: set<Platform>, scripts: Recipient -> Script, to: Recipient, r: Result) {
    if to.platform in platforms then
      Decides(scripts(to), 4, r.attempts) && r == Conclude(scripts(to)(r.attempts), r.attempts)
    else r.status == UNCONFIGURED && r.attempts == 0
  }

  class PushDispatcher {
    const platforms: set<Platform>
    // The delivery and phone tables of the session the dispatch runs in.
    var rows: seq<Row>
    var phones: set<nat>

    constructor (platforms: set<Platform>, rows: seq<Row>, phones: set<nat>)
      ensures this.platforms == platforms && this.rows == rows && this.phones == phones
    {
      this.platforms, this.rows, this.phones := platforms, rows, phones;
    }

    method SendOne(to: Recipient, scripts: Recipient -> Script) returns (r: Result)
      ensures Outcome(platforms, scripts, to, r)
    {
      if to.platform !in platforms {
        return Result(UNCONFIGURED, Some("no transport for " + if to.platform == IOS then "ios" else "android"), 0, None);
      }
      var transport := new PushTransport(scripts(to));
      ghost var upcoming := transport.Upcoming();
      assert forall i: nat :: upcoming(i) == scripts(to)(i);
      r := SendWithRetry(transport, MAX_ATTEMPTS);
      assert Decides(scripts(to), MAX_ATTEMPTS, r.attempts);
    }

    method AddRow(alarm: nat, step: nat, to: Recipient, r: Result, now: int)
      modifies this`rows
      ensures rows == old(rows) + [RowFor(alarm, step, to, r, now)]
    {
      var error := if r.detail == None || r.detail.value == "" then None else Some(Clipped(r.detail.value));
      rows := rows + [Row(alarm, to.user, if to.platform == IOS then "apns" else "fcm", step, r.status,
                          if r.status == SENT then Some(now) else None, error)];
    }

    // EVERY RECIPIENT IS ACCOUNTED FOR: one row each, counted in exactly one total, and only phones
    // whose token is gone are dropped.
    method Dispatch(alarm: nat, recipients: seq<Recipient>, step: nat, scripts: Recipient -> Script, now: int)
      returns (report: Report)
      modifies this`rows, this`phones
      ensures Tallied(report) && |report.results| == |recipients|
      ensures forall i :: 0 <= i < |recipients| ==>
                report.results[i].0 == recipients[i] && Outcome(platforms, scripts, recipients[i], report.results[i].1)
      ensures rows == old(rows) + RowsFor(alarm, step, report.results, now)
      ensures phones == old(phones) - Gone(report.results)
    {
      hide Outcome, RowFor, RowsFor, Gone, CountOf;
      report := Report(0, 0, 0, []);
      OneMoreFromNone(alarm, step, now);
      if recipients == [] {
        return;
      }
      for i := 0 to |recipients|
        invariant Tallied(report) && |report.results| == i
        invariant forall j :: 0 <= j < i ==>
                    report.results[j].0 == recipients[j] && Outcome(platforms, scripts, recipients[j], report.results[j].1)
        invariant rows == old(rows) + RowsFor(alarm, step, report.results, now)
        invariant phones == old(phones) - Gone(report.results)
      {
        var to := recipients[i];
        var r := SendOne(to, scripts);
        var results := report.results + [(to, r)];
        OneMore(alarm, step, report.results, (to, r), now);
        AddRow(alarm, step, to, r, now);
        if r.status == SENT {
          report := report.(sent := report.sent + 1, results := results);
        } else if r.status == UNREGISTERED {
          phones := phones - {to.device};
          report := report.(pruned := report.pruned + 1, results := results);
        } else {
          report := report.(failed := report.failed + 1, results := results);
        }
      }
    }
  }

  // ---- Who is notified ----------------------------------------------------------------------------------

  // A registered phone joined with its owner. An unknown platform is None.
  datatype Phone = Phone(
    tenant: nat, user: nat, role: string, active: bool, platform: Option<Platform>, token: string, device: nat)

  predicate Reaches(p: Phone, tenant: nat, wanted: Phone -> bool) {
    p.tenant == tenant && p.active && wanted(p) && p.platform.Some?
  }

  method RecipientsWhere(phones: seq<Phone>, tenant: nat, wanted: Phone -> bool) returns (r: seq<Recipient>)
    ensures r == Where(phones, tenant, wanted)
  {
    r := [];
    for i := 0 to |phones|
      invariant r == Where(phones[..i], tenant, wanted)
    {
      var p := phones[i];
      assert phones[..i + 1][..i] == phones[..i];
      if p.tenant == tenant && p.active && wanted(p) {
        if p.platform.None? {
          continue;
        }
        r := r + [Recipient(p.user, p.token, p.platform.value, p.device)];
      }
    }
    assert phones[..|phones|] == phones;
  }

  function Where(phones: seq<Phone>, tenant: nat, wanted: Phone -> bool): seq<Recipient> {
    if phones == [] then []
    else
      var rest, p := Where(phones[..|phones| - 1], tenant, wanted), phones[|phones| - 1];
      if Reaches(p, tenant, wanted) then rest + [Recipient(p.user, p.token, p.platform.value, p.device)] else rest
  }

  lemma {:induction false} WhereReachesSomebody(phones: seq<Phone>, tenant: nat, wanted: Phone -> bool)
    ensures Where(phones, tenant, wanted) == []
       <==> forall p :: p in phones && p.tenant == tenant && p.active && wanted(p) ==> p.platform.None?
  {
    if phones != [] {
      var n := |phones| - 1;
      WhereReachesSomebody(phones[..n], tenant, wanted);
      assert phones == phones[..n] + [phones[n]];
    }
  }

  // The recipients are the phones of these rows, each row once and in table order.
  ghost predicate Chosen(r: seq<Recipient>, phones: seq<Phone>, rows: set<nat>) {
    exists at: seq<nat> :: RowsInOrder(at, rows) && PhonesOf(r, phones, at)
  }

  ghost predicate RowsInOrder(at: seq<nat>, rows: set<nat>) {
    && (forall i, j :: 0 <= i < j < |at| ==> at[i] < at[j])
    && (forall x :: x in at <==> x in rows)
  }

  predicate PhonesOf(r: seq<Recipient>, phones: seq<Phone>, at: seq<nat>) {
    && |r| == |at|
    && forall i :: 0 <= i < |at| ==>
         && at[i] < |phones| && phones[at[i]].platform.Some?
         && r[i].user == phones[at[i]].user && r[i].token == phones[at[i]].token
         && r[i].platform == phones[at[i]].platform.value && r[i].device == phones[at[i]].device
  }

  lemma {:induction false} WhereTakes(phones: seq<Phone>, tenant: nat, wanted: Phone -> bool) returns (at: seq<nat>)
    ensures RowsInOrder(at, set i | 0 <= i < |phones| && Reaches(phones[i], tenant, wanted))
    ensures PhonesOf(Where(phones, tenant, wanted), phones, at)
  {
    at := [];
    if phones != [] {
      var n := |phones| - 1;
      at := WhereTakes(phones[..n], tenant, wanted);
      assert forall i :: 0 <= i < n ==> phones[..n][i] == phones[i];
      assert forall i :: 0 <= i < |at| ==> at[i] in at;
      if Reaches(phones[n], tenant, wanted) {
        var before := at;
        at := at + [n];
        assert forall x :: x in at <==> x in before || x == n;
      }
    }
  }

  lemma WhereIsChosen(phones: seq<Phone>, tenant: nat, wanted: Phone -> bool, rows: set<nat>)
    requires forall i :: i in rows <==> 0 <= i < |phones| && Reaches(phones[i], tenant, wanted)
    ensures Chosen(Where(phones, tenant, wanted), phones, rows)
  {
    hide Reaches, PhonesOf;
    var at := WhereTakes(phones, tenant, wanted);
    assert rows == set i | 0 <= i < |phones| && Reaches(phones[i], tenant, wanted);
  }

  function HasRole(role: string): Phone -> bool { (p: Phone) => p.role == role }

  function Named(users: seq<nat>): Phone -> bool { (p: Phone) => p.user in users }

  // The rows of the tenant's active users of this role, on a known platform.
  ghost predicate HeldBy(rows: set<nat>, phones: seq<Phone>, tenant: nat, role: string) {
    forall i :: i in rows <==>
      && 0 <= i < |phones| && phones[i].tenant == tenant && phones[i].active && phones[i].platform.Some?
      && phones[i].role == role
  }

  // Nobody to reach in this role.
  ghost predicate Unheld(phones: seq<Phone>, tenant: nat, role: string) {
    forall p :: p in phones && p.tenant == tenant && p.active && p.role == role ==> p.platform.None?
  }

  // THE LADDER NEVER DEAD-ENDS EARLY. Named users win; otherwise the first role that an active user of the tenant
  // holds a phone for is notified, on all its phones and no other; nobody is only when no role is held.
  method RecipientsForRole(phones: seq<Phone>, tenant: nat, role: string, users: seq<nat>, fallback: seq<string>)
    returns (r: seq<Recipient>)
    ensures users != [] ==>
              Chosen(r, phones, set i | 0 <= i < |phones| && phones[i].tenant == tenant && phones[i].active
                                        && phones[i].platform.Some? && phones[i].user in users)
    ensures users == [] && r == [] ==> forall c :: c in [role] + fallback ==> Unheld(phones, tenant, c)
    ensures users == [] && r != [] ==>
              exists k, rows :: 0 <= k <= |fallback| && HeldBy(rows, phones, tenant, ([role] + fallback)[k])
                                && Chosen(r, phones, rows)
                                && forall i :: 0 <= i < k ==> Unheld(phones, tenant, ([role] + fallback)[i])
  {
    hide Chosen, Where;
    if users != [] {
      r := RecipientsWhere(phones, tenant, Named(users));
      WhereIsChosen(phones, tenant, Named(users), set i | 0 <= i < |phones| && phones[i].tenant == tenant
                                                          && phones[i].active && phones[i].platform.Some?
                                                          && phones[i].user in users);
      return;
    }
    var ladder := [role] + fallback;
    for k := 0 to |ladder|
      invariant forall i :: 0 <= i < k ==> Unheld(phones, tenant, ladder[i])
    {
      var found := RecipientsWhere(phones, tenant, HasRole(ladder[k]));
      WhereReachesSomebody(phones, tenant, HasRole(ladder[k]));
      if found != [] {
        ghost var rows := set i | 0 <= i < |phones| && Reaches(phones[i], tenant, HasRole(ladder[k]));
        WhereIsChosen(phones, tenant, HasRole(ladder[k]), rows);
        assert HeldBy(rows, phones, tenant, ladder[k]);
        return found;
      }
    }
    r := [];
  }
}
