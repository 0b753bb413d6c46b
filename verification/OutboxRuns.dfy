// Whole runs of the outbox: nothing queued is lost, and nothing is uploaded twice at once.
module OutboxRuns {
  import opened Options
  import opened Ordering
  import opened Outbox
  import opened Eviction

  // ---- One claim --------------------------------------------------------------------------------------------

  // May be sent now: still waiting or waiting again, and its next attempt is not in the future.
  predicate Sendable(e: EventRow, now: int) {
    && (e.state == PENDING || e.state == FAILED_RETRYABLE)
    && (e.nextAttemptAt.Some? ==> e.nextAttemptAt.value <= now)
  }

  // Occurred earlier, or at the same time and inserted no later.
  predicate NoLater(e: EventRow, x: EventRow) {
    e.report.occurredAt < x.report.occurredAt || (e.report.occurredAt == x.report.occurredAt && e.id <= x.id)
  }

  // THE EARLIEST GO FIRST: only rows that may be sent, in order of occurrence, as many as allowed, and none that
  // comes after such a row left behind.
  lemma ClaimMeans(events: seq<EventRow>, limit: int, now: int)
    ensures var rows := Claim(events, limit, now);
            && (forall e :: e in rows ==> e in events && Sendable(e, now))
            && (forall i, j :: 0 <= i < j < |rows| ==> NoLater(rows[i], rows[j]))
            && (limit >= 0 ==> |rows| <= limit)
            && (limit < 0 || |rows| < limit ==> forall e :: e in events && Sendable(e, now) ==> e in rows)
            && forall e, x :: e in events && Sendable(e, now) && e !in rows && x in rows ==> NoLater(x, e)
  {
    hide Claim;
    ClaimTakesEarliest(events, limit, now);
    assert forall e :: Claimable(e, now) <==> Sendable(e, now);
    assert forall e, x :: Before(ByTime(e), ByTime(x)) <==> !NoLater(x, e);
  }

  // The same in terms of the table's own order.
  lemma ClaimTakesEarliest(events: seq<EventRow>, limit: int, now: int)
    ensures var rows := Claim(events, limit, now);
            && (forall e :: e in rows ==> e in events && Claimable(e, now))
            && SortedBy(rows, ByTime)
            && (limit >= 0 ==> |rows| <= limit)
            && (limit < 0 || |rows| < limit ==> forall e :: e in events && Claimable(e, now) ==> e in rows)
            && forall e, x :: e in events && Claimable(e, now) && e !in rows && x in rows ==> !Before(ByTime(e), ByTime(x))
  {
    hide Claimable, Before, ByTime, Sort;
    var waiting := ClaimableRows(events, now);
    var order, rows := Sort(waiting, ByTime), Claim(events, limit, now);
    SortSorts(waiting, ByTime);
    assert forall i :: 0 <= i < |rows| ==> rows[i] == order[i];
    forall e | e in rows
      ensures e in order
    {
      var i :| 0 <= i < |rows| && rows[i] == e;
      assert order[i] == e;
    }
    forall e, x | e in order && e !in rows && x in rows
      ensures !Before(ByTime(e), ByTime(x))
    {
      var i :| 0 <= i < |order| && order[i] == e;
      var j :| 0 <= j < |rows| && rows[j] == x;
      assert i >= |rows|;
      assert order[j] == x;
    }
  }

  // ---- Runs -------------------------------------------------------------------------------------------------

  datatype Op =
    | Enqueue(report: Report, now: int)
    | ClaimUpTo(limit: int, now: int)
    | Mark(edgeEventId: string, state: State, error: Option<string>, nextAttemptAt: Option<int>)
    | Spooled(edgeEventId: string, kind: string, filePath: string, size: int, priority: int, now: int)
    | Evict(target: int)

  function Step(t: Tables, op: Op): Tables {
    match op
    case Enqueue(r, now) => Enqueued(t, r, now)
    case ClaimUpTo(limit, now) => t.(events := Uploading(t.events, Claim(t.events, limit, now)))
    case Mark(id, state, error, next) => t.(events := Marked(t.events, id, state, error, next))
    case Spooled(id, kind, path, size, priority, now) => WithMedia(t, id, kind, path, size, priority, now)
    case Evict(target) => t.(media := WithoutAll(t.media, Evicted(t.media, target)))
  }

  function Run(t: Tables, ops: seq<Op>): Tables
    decreases |ops|
  {
    if ops == [] then t else Run(Step(t, ops[0]), ops[1..])
  }

  // The same event, wherever its upload has got to.
  predicate SameEvent(a: EventRow, b: EventRow) { a.id == b.id && a.report == b.report && a.createdAt == b.createdAt }

  ghost predicate Keeps(before: seq<EventRow>, after: seq<EventRow>) {
    |before| <= |after| && forall k :: 0 <= k < |before| ==> SameEvent(before[k], after[k])
  }

  lemma StepKeepsEvents(t: Tables, op: Op)
    requires Sound(t)
    ensures var m := Step(t, op);
            Keeps(t.events, m.events) && EventsSound(m.events, m.nextId) && m.nextId >= t.nextId
    ensures op.Enqueue? ==> IsQueued(Step(t, op).events, op.report.edgeEventId)
  {
    hide Claim, Evicted, WithoutAll, MediaSound;
    if op.Enqueue? && !IsQueued(t.events, op.report.edgeEventId) {
      assert Step(t, op).events[|t.events|].report == op.report;
    }
  }

  lemma StepKeepsMedia(t: Tables, op: Op)
    requires Sound(t)
    ensures MediaSound(Step(t, op).media, Step(t, op).nextId)
  {
    hide Claim, Evicted, WithoutAll, EventsSound, IsQueued;
    if op.Evict? {
      assert DistinctIds(t.media);
      EvictionFrees(t.media, op.target);
      var left := Step(t, op).media;
      forall i | 0 <= i < |left|
        ensures left[i].id < t.nextId
      {
        assert left[i] in left;
      }
    }
  }

  lemma StepKeepsSound(t: Tables, op: Op)
    requires Sound(t)
    ensures Sound(Step(t, op))
  {
    StepKeepsEvents(t, op);
    StepKeepsMedia(t, op);
  }

  lemma EmptyIsSound()
    ensures Sound(Tables([], [], 0))
  {
  }

  lemma KeepsChain(a: seq<EventRow>, b: seq<EventRow>, c: seq<EventRow>)
    requires Keeps(a, b) && Keeps(b, c)
    ensures Keeps(a, c)
  {
    forall k | 0 <= k < |a|
      ensures SameEvent(a[k], c[k])
    {
      assert SameEvent(a[k], b[k]) && SameEvent(b[k], c[k]);
    }
  }

  // NO EVENT IS LOST OR DUPLICATED: through any run every row stays in its place with what was reported,
  // and no edge event id is ever on two rows. Evicting media does not touch them.
  lemma {:induction false} RunKeepsEvents(t: Tables, ops: seq<Op>)
    requires Sound(t)
    ensures Sound(Run(t, ops)) && Keeps(t.events, Run(t, ops).events)
    decreases |ops|
  {
    hide Sound, Keeps, Step;
    if ops == [] {
      KeepsItself(t.events);
    } else {
      StepKeepsSound(t, ops[0]);
      StepKeepsEvents(t, ops[0]);
      RunKeepsEvents(Step(t, ops[0]), ops[1..]);
      KeepsChain(t.events, Step(t, ops[0]).events, Run(t, ops).events);
    }
  }

  lemma KeepsItself(events: seq<EventRow>)
    ensures Keeps(events, events)
  {
  }

  // Whatever was enqueued during the run is in the table at the end of it.
  lemma {:induction false} EnqueuedIsKept(t: Tables, ops: seq<Op>, i: nat)
    requires Sound(t) && i < |ops| && ops[i].Enqueue?
    ensures IsQueued(Run(t, ops).events, ops[i].report.edgeEventId)
    decreases |ops|
  {
    hide Sound, Step;
    StepKeepsSound(t, ops[0]);
    if i == 0 {
      StepKeepsEvents(t, ops[0]);
      var next := Step(t, ops[0]);
      RunKeepsEvents(next, ops[1..]);
      var k :| 0 <= k < |next.events| && next.events[k].report.edgeEventId == ops[0].report.edgeEventId;
      assert SameEvent(next.events[k], Run(t, ops).events[k]);
    } else {
      EnqueuedIsKept(Step(t, ops[0]), ops[1..], i - 1);
    }
  }

  // ---- One upload at a time ---------------------------------------------------------------------------------

  // The operation hands out row k.
  predicate HandsOut(t: Tables, op: Op, k: nat) {
    op.ClaimUpTo? && k < |t.events| && t.events[k] in Claim(t.events, op.limit, op.now)
  }

  // How often the run hands out row k.
  function TimesHandedOut(t: Tables, ops: seq<Op>, k: nat): nat
    decreases |ops|
  {
    if ops == [] then 0
    else (if HandsOut(t, ops[0], k) then 1 else 0) + TimesHandedOut(Step(t, ops[0]), ops[1..], k)
  }

  // Some mark of the run makes the event claimable again.
  predicate MarkedBack(ops: seq<Op>, edgeEventId: string) {
    exists i :: 0 <= i < |ops| && ops[i].Mark? && ops[i].edgeEventId == edgeEventId && Waiting(ops[i].state)
  }

  lemma HandedOutWasWaiting(t: Tables, op: Op, k: nat)
    requires HandsOut(t, op, k)
    ensures Waiting(t.events[k].state) && Step(t, op).events[k].state == UPLOADING
  {
    hide Claim;
    ClaimTakesEarliest(t.events, op.limit, op.now);
    var rows := Claim(t.events, op.limit, op.now);
    var i :| 0 <= i < |rows| && rows[i] == t.events[k];
    assert HasId(rows, t.events[k].id);
  }

  // A row that is not waiting stays so until a mark puts it back.
  lemma StaysOut(t: Tables, op: Op, k: nat)
    requires k < |t.events| && !Waiting(t.events[k].state)
    requires !(op.Mark? && op.edgeEventId == t.events[k].report.edgeEventId && Waiting(op.state))
    ensures var m := Step(t, op).events;
            k < |m| && m[k].report == t.events[k].report && !Waiting(m[k].state)
    ensures !HandsOut(t, op, k)
  {
    hide Claim, Evicted, WithoutAll;
    if HandsOut(t, op, k) { HandedOutWasWaiting(t, op, k); }
  }

  lemma {:induction false} NotHandedOutUntilMarked(t: Tables, ops: seq<Op>, k: nat)
    requires k < |t.events| && !Waiting(t.events[k].state) && !MarkedBack(ops, t.events[k].report.edgeEventId)
    ensures TimesHandedOut(t, ops, k) == 0
    decreases |ops|
  {
    hide Step, HandsOut, Waiting;
    if ops != [] {
      var id := t.events[k].report.edgeEventId;
      assert !(ops[0].Mark? && ops[0].edgeEventId == id && Waiting(ops[0].state));
      StaysOut(t, ops[0], k);
      assert forall i :: 0 <= i < |ops[1..]| ==> ops[1..][i] == ops[i + 1];
      NotHandedOutUntilMarked(Step(t, ops[0]), ops[1..], k);
    }
  }

  // ONE UPLOAD AT A TIME: an event handed out by one claim is handed out again only after a mark has put it
  // back among the waiting.
  lemma ClaimsAreSeparated(t: Tables, claim: Op, ops: seq<Op>, k: nat)
    requires HandsOut(t, claim, k) && TimesHandedOut(Step(t, claim), ops, k) > 0
    ensures MarkedBack(ops, t.events[k].report.edgeEventId)
  {
    hide Claim, MarkedBack;
    HandedOutWasWaiting(t, claim, k);
    if !MarkedBack(ops, t.events[k].report.edgeEventId) {
      NotHandedOutUntilMarked(Step(t, claim), ops, k);
    }
  }

  // ---- Attempts ---------------------------------------------------------------------------------------------

  function MarksOf(ops: seq<Op>, edgeEventId: string): nat
    decreases |ops|
  {
    if ops == [] then 0
    else (if ops[0].Mark? && ops[0].edgeEventId == edgeEventId then 1 else 0) + MarksOf(ops[1..], edgeEventId)
  }

  // The attempts of an event count its marks.
  lemma {:induction false} AttemptsCountMarks(t: Tables, ops: seq<Op>, k: nat)
    requires k < |t.events|
    ensures var m := Run(t, ops).events;
            k < |m| && m[k].attempts == t.events[k].attempts + MarksOf(ops, t.events[k].report.edgeEventId)
    decreases |ops|
  {
    hide Claim, Evicted, WithoutAll;
    if ops != [] { AttemptsCountMarks(Step(t, ops[0]), ops[1..], k); }
  }
}
