// The edge agent's offline queue: events waiting for upload, and the media spooled beside them.
module Outbox {
  import opened Options
  import opened Ordering

  datatype State = PENDING | UPLOADING | DONE | FAILED_RETRYABLE | FAILED_PERMANENT

  // What the caller reported.
  datatype Report = Report(
    edgeEventId: string, device: string, channel: Option<int>, eventType: string, payload: string, occurredAt: int)

  // Identifiers are given out in insertion order.
  datatype EventRow = EventRow(
    id: nat, report: Report, createdAt: int, state: State, attempts: nat, nextAttemptAt: Option<int>,
    lastError: Option<string>)

  datatype MediaRow = MediaRow(
    id: nat, edgeEventId: string, kind: string, filePath: string, size: int, priority: int, createdAt: int, state: State)

  datatype Tables = Tables(events: seq<EventRow>, media: seq<MediaRow>, nextId: nat)

  predicate IsQueued(events: seq<EventRow>, edgeEventId: string) {
    exists k :: 0 <= k < |events| && events[k].report.edgeEventId == edgeEventId
  }

  // ---- Events -----------------------------------------------------------------------------------------------

  // ON CONFLICT DO NOTHING.
  function Enqueued(t: Tables, r: Report, now: int): Tables {
    if IsQueued(t.events, r.edgeEventId) then t
    else t.(events := t.events + [EventRow(t.nextId, r, now, PENDING, 0, None, None)], nextId := t.nextId + 1)
  }

  predicate Waiting(s: State) { s == PENDING || s == FAILED_RETRYABLE }

  predicate Claimable(e: EventRow, now: int) {
    Waiting(e.state) && (e.nextAttemptAt.None? || e.nextAttemptAt.value <= now)
  }

  function ClaimableRows(events: seq<EventRow>, now: int): (r: seq<EventRow>)
    ensures forall e :: e in r <==> e in events && Claimable(e, now)
  {
    if events == [] then []
    else
      var n := |events| - 1;
      assert events == events[..n] + [events[n]];
      var rest := ClaimableRows(events[..n], now);
      if Claimable(events[n], now) then rest + [events[n]] else rest
  }

  function ByTime(e: EventRow): Key { (e.report.occurredAt, e.id, 0) }

  // LIMIT; a negative limit is none.
  function Limited<T>(rows: seq<T>, limit: int): seq<T> {
    if limit < 0 || limit >= |rows| then rows else rows[..limit]
  }

  function Claim(events: seq<EventRow>, limit: int, now: int): seq<EventRow> {
    Limited(Sort(ClaimableRows(events, now), ByTime), limit)
  }

  predicate HasId(rows: seq<EventRow>, id: nat) { exists k :: 0 <= k < |rows| && rows[k].id == id }

  // UPDATE ... SET state = 'UPLOADING' for the rows.
  function Uploading(events: seq<EventRow>, rows: seq<EventRow>): (r: seq<EventRow>)
    ensures |r| == |events|
    ensures forall k :: 0 <= k < |r| ==>
              r[k] == if HasId(rows, events[k].id) then events[k].(state := UPLOADING) else events[k]
  {
    seq(|events|, k requires 0 <= k < |events| =>
      if HasId(rows, events[k].id) then events[k].(state := UPLOADING) else events[k])
  }

  function MarkRow(e: EventRow, state: State, error: Option<string>, nextAttemptAt: Option<int>): EventRow {
    e.(state := state, lastError := error, attempts := e.attempts + 1, nextAttemptAt := nextAttemptAt)
  }

  function Marked(
    events: seq<EventRow>, edgeEventId: string, state: State, error: Option<string>, nextAttemptAt: Option<int>)
    : (r: seq<EventRow>)
    ensures |r| == |events|
    ensures forall k :: 0 <= k < |r| ==>
              r[k] == if events[k].report.edgeEventId != edgeEventId then events[k]
                      else MarkRow(events[k], state, error, nextAttemptAt)
  {
    seq(|events|, k requires 0 <= k < |events| =>
      if events[k].report.edgeEventId == edgeEventId then MarkRow(events[k], state, error, nextAttemptAt) else events[k])
  }

  // ---- Media ------------------------------------------------------------------------------------------------

  function Spool(media: seq<MediaRow>): int {
    if media == [] then 0
    else Spool(media[..|media| - 1]) + if media[|media| - 1].state != DONE then media[|media| - 1].size else 0
  }

  function Unfinished(media: seq<MediaRow>): (r: seq<MediaRow>)
    ensures forall m :: m in r <==> m in media && m.state != DONE
  {
    if media == [] then []
    else
      var n := |media| - 1;
      assert media == media[..n] + [media[n]];
      if media[n].state != DONE then Unfinished(media[..n]) + [media[n]] else Unfinished(media[..n])
  }

  // The largest priority number first, the oldest first within it.
  function ByWorth(m: MediaRow): Key { (-m.priority, m.createdAt, m.id) }

  function EvictionOrder(media: seq<MediaRow>): seq<MediaRow> { Sort(Unfinished(media), ByWorth) }

  // DELETE ... WHERE id = ?
  function Without(media: seq<MediaRow>, id: nat): seq<MediaRow> {
    if media == [] then []
    else
      var n := |media| - 1;
      if media[n].id == id then Without(media[..n], id) else Without(media[..n], id) + [media[n]]
  }

  function WithoutAll(media: seq<MediaRow>, gone: seq<MediaRow>): seq<MediaRow> {
    if gone == [] then media else Without(WithoutAll(media, gone[..|gone| - 1]), gone[|gone| - 1].id)
  }

  function Sizes(rows: seq<MediaRow>): int {
    if rows == [] then 0 else Sizes(rows[..|rows| - 1]) + rows[|rows| - 1].size
  }

  // How many of the rows have to go, from row k on, to bring the total down to the target.
  function Needed(order: seq<MediaRow>, total: int, target: int, k: nat): (n: nat)
    requires k <= |order|
    ensures k <= n <= |order|
    decreases |order| - k
  {
    if k == |order| || total - Sizes(order[..k]) <= target then k else Needed(order, total, target, k + 1)
  }

  function Evicted(media: seq<MediaRow>, target: int): seq<MediaRow> {
    var order := EvictionOrder(media);
    order[..Needed(order, Spool(media), target, 0)]
  }

  function Paths(rows: seq<MediaRow>): (r: seq<string>)
    ensures |r| == |rows| && forall i :: 0 <= i < |r| ==> r[i] == rows[i].filePath
  {
    seq(|rows|, i requires 0 <= i < |rows| => rows[i].filePath)
  }

  // ---- What every table satisfies ---------------------------------------------------------------------------

  ghost predicate EventsSound(events: seq<EventRow>, nextId: nat) {
    && (forall i, j :: 0 <= i < j < |events| ==>
          events[i].id != events[j].id && events[i].report.edgeEventId != events[j].report.edgeEventId)
    && forall i :: 0 <= i < |events| ==> events[i].id < nextId
  }

  ghost predicate MediaSound(media: seq<MediaRow>, nextId: nat) {
    && (forall i, j :: 0 <= i < j < |media| ==> media[i].id != media[j].id)
    && forall i :: 0 <= i < |media| ==> media[i].id < nextId
  }

  ghost predicate Sound(t: Tables) { EventsSound(t.events, t.nextId) && MediaSound(t.media, t.nextId) }

  // ---- The store --------------------------------------------------------------------------------------------

  class SqliteOutbox {
    var events: seq<EventRow>
    var media: seq<MediaRow>
    var nextId: nat

    constructor ()
      ensures Contents() == Tables([], [], 0)
    {
      events, media, nextId := [], [], 0;
    }

    function Contents(): Tables
      reads this
    {
      Tables(events, media, nextId)
    }

    // `generated` is the random id used when the caller brings none.
    method EnqueueEvent(r: Report, generated: string, now: int) returns (edgeEventId: string)
      modifies this`events, this`nextId
      ensures edgeEventId == if r.edgeEventId == "" then generated else r.edgeEventId
      ensures Contents() == Enqueued(old(Contents()), r.(edgeEventId := edgeEventId), now)
      ensures IsQueued(events, edgeEventId)
      ensures |old(events)| <= |events| <= |old(events)| + 1 && events[..|old(events)|] == old(events)
      ensures |events| == |old(events)|
         <==> exists k :: 0 <= k < |old(events)| && old(events)[k].report.edgeEventId == edgeEventId
      ensures |events| > |old(events)| ==>
                var e := events[|old(events)|];
                && e.report == r.(edgeEventId := edgeEventId) && e.createdAt == now && e.state == PENDING
                && e.attempts == 0 && e.nextAttemptAt == None && e.lastError == None
    {
      edgeEventId := if r.edgeEventId == "" then generated else r.edgeEventId;
      for i := 0 to |events|
        invariant forall k :: 0 <= k < i ==> events[k].report.edgeEventId != edgeEventId
        invariant Contents() == old(Contents())
      {
        if events[i].report.edgeEventId == edgeEventId {
          return;
        }
      }
      ghost var n := |events|;
      events := events + [EventRow(nextId, r.(edgeEventId := edgeEventId), now, PENDING, 0, None, None)];
      nextId := nextId + 1;
      assert events[n].report.edgeEventId == edgeEventId;
    }

    method ClaimEvents(limit: int, now: int) returns (rows: seq<EventRow>)
      modifies this`events
      ensures rows == Claim(old(events), limit, now)
      ensures events == Uploading(old(events), rows)
    {
      hide Claim;
      rows := Claim(events, limit, now);
      for i := 0 to |rows|
        invariant events == Uploading(old(events), rows[..i])
      {
        UpdateState(rows[i].id, UPLOADING);
        HasIdNext(rows, i);
      }
      assert rows[..|rows|] == rows;
    }

    method UpdateState(id: nat, state: State)
      modifies this`events
      ensures |events| == |old(events)|
      ensures forall k :: 0 <= k < |events| ==>
                events[k] == if old(events)[k].id == id then old(events)[k].(state := state) else old(events)[k]
    {
      events := seq(|events|, k requires 0 <= k < |events| reads this =>
        if events[k].id == id then events[k].(state := state) else events[k]);
    }

    method MarkEvent(edgeEventId: string, state: State, error: Option<string>, nextAttemptAt: Option<int>)
      modifies this`events
      ensures events == Marked(old(events), edgeEventId, state, error, nextAttemptAt)
      ensures forall k :: 0 <= k < |events| && events[k].report.edgeEventId == edgeEventId ==>
                events[k] == EventRow(old(events)[k].id, old(events)[k].report, old(events)[k].createdAt, state,
                                      old(events)[k].attempts + 1, nextAttemptAt, error)
      ensures forall k :: 0 <= k < |events| && events[k].report.edgeEventId != edgeEventId ==> events[k] == old(events)[k]
    {
      events := Marked(events, edgeEventId, state, error, nextAttemptAt);
    }

    method EnqueueMedia(edgeEventId: string, kind: string, filePath: string, size: int, priority: int, now: int)
      modifies this`media, this`nextId
      ensures Contents() == WithMedia(old(Contents()), edgeEventId, kind, filePath, size, priority, now)
      ensures |media| == |old(media)| + 1 && media[..|old(media)|] == old(media) && events == old(events)
      ensures var m := media[|old(media)|];
              && m.edgeEventId == edgeEventId && m.kind == kind && m.filePath == filePath && m.size == size
              && m.priority == priority && m.createdAt == now && m.state == PENDING
    {
      media := media + [MediaRow(nextId, edgeEventId, kind, filePath, size, priority, now, PENDING)];
      nextId := nextId + 1;
    }

    method SpoolBytes() returns (total: int)
      ensures total == Spool(media)
    {
      total := 0;
      for i := 0 to |media|
        invariant total == Spool(media[..i])
      {
        assert media[..i + 1][..i] == media[..i];
        if media[i].state != DONE {
          total := total + media[i].size;
        }
      }
      assert media[..|media|] == media;
    }

    method EvictMedia(target: int) returns (freed: seq<string>)
      modifies this`media
      ensures media == WithoutAll(old(media), Evicted(old(media), target))
      ensures freed == Paths(Evicted(old(media), target))
    {
      hide Spool, EvictionOrder, Without;
      freed := [];
      var total := SpoolBytes();
      ghost var spooled := total;
      var rows := EvictionOrder(media);
      if total <= target {
        assert rows[..0] == [];
        return;
      }
      for k := 0 to |rows|
        invariant media == WithoutAll(old(media), rows[..k]) && freed == Paths(rows[..k])
        invariant total == spooled - Sizes(rows[..k])
        invariant Needed(rows, spooled, target, 0) == Needed(rows, spooled, target, k)
      {
        if total <= target {
          return;
        }
        assert rows[..k + 1][..k] == rows[..k];
        media := Without(media, rows[k].id);
        total := total - rows[k].size;
        freed := freed + [rows[k].filePath];
      }
    }
  }

  function WithMedia(
    t: Tables, edgeEventId: string, kind: string, filePath: string, size: int, priority: int, now: int): Tables
  {
    t.(media := t.media + [MediaRow(t.nextId, edgeEventId, kind, filePath, size, priority, now, PENDING)],
       nextId := t.nextId + 1)
  }

  lemma HasIdNext(rows: seq<EventRow>, i: nat)
    requires i < |rows|
    ensures forall id :: HasId(rows[..i + 1], id) <==> HasId(rows[..i], id) || rows[i].id == id
  {
    forall id: nat
      ensures HasId(rows[..i + 1], id) <==> HasId(rows[..i], id) || rows[i].id == id
    {
      if HasId(rows[..i], id) {
        var k :| 0 <= k < i && rows[..i][k].id == id;
        assert rows[..i + 1][k].id == id;
      }
      if rows[i].id == id { assert rows[..i + 1][i].id == id; }
      if HasId(rows[..i + 1], id) && rows[i].id != id {
        var k :| 0 <= k <= i && rows[..i + 1][k].id == id;
        assert rows[..i][k].id == id;
      }
    }
  }
}
