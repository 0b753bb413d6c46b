// Any run of deliveries and redeliveries: what the tables always satisfy, and what a resend changes.
module IntakeRuns {
  import opened Options
  import opened AlarmFlow
  import opened Intake

  // The window is memory of the process: a restart forgets it and keeps the tables.
  datatype Step = Deliver(d: Delivery) | Restart

  function After(window: int, w: World, s: Step): World {
    match s
    case Deliver(d) => Handled(window, w, d)
    case Restart => w.(entries := map[])
  }

  function Run(window: int, w: World, steps: seq<Step>): World {
    if steps == [] then w else After(window, Run(window, w, steps[..|steps| - 1]), steps[|steps| - 1])
  }

  // ---- The invariant ---------------------------------------------------------------------------------------

  ghost predicate Names(t: Tables, event: nat) { exists k :: 0 <= k < |t.events| && t.events[k].id == event }

  ghost predicate MessagesOnce(t: Tables) {
    forall i, j :: 0 <= i < j < |t.messages| ==> t.messages[i].messageId != t.messages[j].messageId
  }

  // No message has two events; an event's message is on record and its identifier was given out.
  ghost predicate EventsOnce(t: Tables) {
    && (forall i, j :: 0 <= i < j < |t.events| ==>
          t.events[i].id != t.events[j].id
          && (t.events[i].messageId != t.events[j].messageId || t.events[i].messageId == ""))
    && (forall i :: 0 <= i < |t.events| ==> t.events[i].id < t.nextId && HasMessage(t.messages, t.events[i].messageId))
  }

  // No event has two alarms, and every alarm is about an event.
  ghost predicate AlarmsOnce(t: Tables) {
    && (forall i, j :: 0 <= i < j < |t.alarms| ==>
          t.alarms[i].event != t.alarms[j].event && t.alarms[i].id != t.alarms[j].id)
    && (forall i :: 0 <= i < |t.alarms| ==> Names(t, t.alarms[i].event) && t.alarms[i].id < t.nextId)
  }

  ghost predicate MediaSound(t: Tables) {
    && UniqueKeys(t.media)
    && forall i :: 0 <= i < |t.media| ==> Names(t, t.media[i].event) && t.media[i].key.event == t.media[i].event
  }

  ghost predicate Sound(t: Tables) { MessagesOnce(t) && EventsOnce(t) && AlarmsOnce(t) && MediaSound(t) }

  lemma {:induction false} FindExactly(events: seq<EventRow>, messageId: string)
    ensures FindEvent(events, messageId).None? <==> forall k :: 0 <= k < |events| ==> events[k].messageId != messageId
    decreases |events|
  {
    if events != [] && events[0].messageId != messageId {
      FindExactly(events[1..], messageId);
      assert forall k :: 1 <= k < |events| ==> events[k] == events[1..][k - 1];
    }
  }

  lemma BaseStaysSound(t: Tables, r: IngestResult, o: Outcome, now: int)
    requires Sound(t)
    ensures var base := WithHeartbeat(WithMessage(t, r, o), r.device, now);
            Sound(base) && HasMessage(base.messages, r.messageId)
  {
    hide LabelOf, WithHeartbeat;
    BaseKeepsRest(t, r, o, now);
    HeartbeatKeepsMessages(WithMessage(t, r, o), r.device, now);
    var base := WithHeartbeat(WithMessage(t, r, o), r.device, now);
    forall m | HasMessage(t.messages, m)
      ensures HasMessage(base.messages, m)
    {
      var k :| 0 <= k < |t.messages| && t.messages[k].messageId == m;
      assert base.messages[k].messageId == m;
    }
    if !HasMessage(t.messages, r.messageId) {
      assert base.messages[|t.messages|].messageId == r.messageId;
    }
    forall e: nat ensures Names(base, e) == Names(t, e) { }
  }

  lemma HeartbeatKeepsMessages(t: Tables, device: nat, now: int)
    ensures WithHeartbeat(t, device, now).messages == t.messages
  {
  }

  lemma EventsStayOnce(t: Tables, r: IngestResult, o: Outcome, shas: set<string>)
    requires EventsOnce(t) && r.event.Some? && EventOf(t, r.messageId).None? && HasMessage(t.messages, r.messageId)
    ensures EventsOnce(WithEvent(t, r, o, shas))
  {
    hide Assets, AlarmsOf, HasMessage;
    if r.messageId != "" { FindExactly(t.events, r.messageId); }
  }

  lemma NamesGrow(t: Tables, r: IngestResult, o: Outcome, shas: set<string>)
    requires EventsOnce(t) && r.event.Some?
    ensures forall e: nat :: Names(t, e) ==> Names(WithEvent(t, r, o, shas), e) && e < t.nextId
    ensures Names(WithEvent(t, r, o, shas), t.nextId)
  {
    hide Assets, AlarmsOf, HasMessage;
    var m := WithEvent(t, r, o, shas);
    assert m.events[|t.events|].id == t.nextId;
    forall e: nat | Names(t, e)
      ensures Names(m, e) && e < t.nextId
    {
      var k :| 0 <= k < |t.events| && t.events[k].id == e;
      assert m.events[k].id == e;
    }
  }

  lemma EventStaysSound(t: Tables, r: IngestResult, o: Outcome, shas: set<string>)
    requires Sound(t) && r.event.Some? && EventOf(t, r.messageId).None? && HasMessage(t.messages, r.messageId)
    requires UniqueKeys(WithEvent(t, r, o, shas).media)
    ensures Sound(WithEvent(t, r, o, shas))
  {
    hide EventsOnce, Names, HasMessage, EventOf, UniqueKeys;
    EventsStayOnce(t, r, o, shas);
    NamesGrow(t, r, o, shas);
  }

  lemma DeliveryStaysSound(window: int, w: World, d: Delivery)
    requires Sound(w.tables)
    ensures Sound(Handled(window, w, d).tables)
  {
    hide Sound, WithEvent, WithHeartbeat, WithMessage, FlowOf, Noted, UniqueKeys, Landed;
    if d.ctx.Some? {
      var o, shas := FlowOf(window, w, d), Landed(d.r.media, d.stores);
      BaseStaysSound(w.tables, d.r, o, d.now);
      BaseKeepsRest(w.tables, d.r, o, d.now);
      var base := WithHeartbeat(WithMessage(w.tables, d.r, o), d.r.device, d.now);
      if MakesEvent(w.tables, d.r, o) && UniqueKeys(WithEvent(base, d.r, o, shas).media) {
        EventStaysSound(base, d.r, o, shas);
      }
    }
  }

  lemma {:induction false} RunsStaySound(window: int, w: World, steps: seq<Step>)
    requires Sound(w.tables)
    ensures Sound(Run(window, w, steps).tables)
  {
    hide Sound, Handled;
    if steps != [] {
      var before, last := Run(window, w, steps[..|steps| - 1]), steps[|steps| - 1];
      RunsStaySound(window, w, steps[..|steps| - 1]);
      if last.Deliver? { DeliveryStaysSound(window, before, last.d); }
    }
  }

  lemma EmptyIsSound()
    ensures Sound(EMPTY)
  {
  }

  // ---- Resending a message -----------------------------------------------------------------------------------

  predicate YieldsEvent(r: IngestResult) { !r.blocked && r.event.Some? }

  // Everything the message has to leave in the tables is there.
  predicate Processed(t: Tables, r: IngestResult) {
    HasMessage(t.messages, r.messageId) && (YieldsEvent(r) ==> EventOf(t, r.messageId).Some?)
  }

  // Every event is stored, whatever the flow decides about it.
  lemma EventsAreAlwaysKept(window: int, w: World, d: Delivery)
    requires d.ctx.Some?
    ensures MakesEvent(w.tables, d.r, FlowOf(window, w, d))
        <==> YieldsEvent(d.r) && EventOf(w.tables, d.r.messageId).None?
  {
    hide Scored, EvaluationContext;
  }

  lemma WritingProcesses(t: Tables, r: IngestResult, o: Outcome, shas: set<string>, now: int)
    requires r.messageId != "" && (MakesEvent(t, r, o) <==> YieldsEvent(r) && EventOf(t, r.messageId).None?)
    ensures Processed(Written(t, r, o, shas, now), r)
  {
    hide WithHeartbeat, LabelOf, Assets, AlarmsOf;
    BaseKeepsRest(t, r, o, now);
    HeartbeatKeepsMessages(WithMessage(t, r, o), r.device, now);
    var m := Written(t, r, o, shas, now);
    assert HasMessage(m.messages, r.messageId) by {
      if !HasMessage(t.messages, r.messageId) {
        assert m.messages[|t.messages|].messageId == r.messageId;
      }
    }
    if MakesEvent(t, r, o) {
      assert m.events[|t.events|].messageId == r.messageId;
      FindExactly(m.events, r.messageId);
    }
  }

  lemma WritingKeepsProcessed(t: Tables, r: IngestResult, o: Outcome, shas: set<string>, now: int, done: IngestResult)
    requires Processed(t, done)
    ensures Processed(Written(t, r, o, shas, now), done)
  {
    hide WithHeartbeat, LabelOf, Assets, AlarmsOf;
    BaseKeepsRest(t, r, o, now);
    HeartbeatKeepsMessages(WithMessage(t, r, o), r.device, now);
    var m := Written(t, r, o, shas, now);
    var k :| 0 <= k < |t.messages| && t.messages[k].messageId == done.messageId;
    assert m.messages[k].messageId == done.messageId;
    if YieldsEvent(done) {
      FindExactly(t.events, done.messageId);
      var j :| 0 <= j < |t.events| && t.events[j].messageId == done.messageId;
      assert m.events[j].messageId == done.messageId;
      FindExactly(m.events, done.messageId);
    }
  }

  lemma {:induction false} StaysProcessed(window: int, w: World, steps: seq<Step>, done: IngestResult)
    requires Processed(w.tables, done)
    ensures Processed(Run(window, w, steps).tables, done)
  {
    hide Processed, Written, FlowOf, Noted, UniqueKeys, Landed;
    if steps != [] {
      var before, last := Run(window, w, steps[..|steps| - 1]), steps[|steps| - 1];
      StaysProcessed(window, w, steps[..|steps| - 1], done);
      if last.Deliver? && last.d.ctx.Some? {
        var d := last.d;
        WritingKeepsProcessed(before.tables, d.r, FlowOf(window, before, d), Landed(d.r.media, d.stores), d.now, done);
      }
    }
  }

  // IDEMPOTENT INTAKE: once a delivery has gone through, resending the message changes no row but the recorder's
  // heartbeat and uploads nothing, however much happens in between, restarts included, whenever it arrives, and
  // whatever it is parsed to and the flow decides the second time (unless an event is read from it only then).
  lemma ResendOnlyBeats(window: int, w: World, first: Delivery, between: seq<Step>, again: Delivery)
    requires Sound(w.tables) && GoesThrough(window, w, first) && first.r.messageId != ""
    requires again.r.messageId == first.r.messageId && (YieldsEvent(again.r) ==> YieldsEvent(first.r))
    requires again.ctx.Some?
    ensures var later := Run(window, Handled(window, w, first), between);
            && Handled(window, later, again).tables == WithHeartbeat(later.tables, again.r.device, again.now)
            && Handled(window, later, again).objects == later.objects
  {
    hide Sound, Written, FlowOf, Noted, UniqueKeys, Landed, Processed;
    var o, shas := FlowOf(window, w, first), Landed(first.r.media, first.stores);
    EventsAreAlwaysKept(window, w, first);
    WritingProcesses(w.tables, first.r, o, shas, first.now);
    var once := Handled(window, w, first);
    StaysProcessed(window, once, between, first.r);
    DeliveryStaysSound(window, w, first);
    RunsStaySound(window, once, between);
    SameMessageProcessed(Run(window, once, between).tables, first.r, again.r);
    ProcessedOnlyBeats(window, Run(window, once, between), again);
  }

  lemma SameMessageProcessed(t: Tables, first: IngestResult, again: IngestResult)
    requires Processed(t, first) && again.messageId == first.messageId
    requires YieldsEvent(again) ==> YieldsEvent(first)
    ensures Processed(t, again)
  {
  }

  lemma ProcessedOnlyBeats(window: int, w: World, d: Delivery)
    requires Sound(w.tables) && Processed(w.tables, d.r) && d.ctx.Some?
    ensures Handled(window, w, d).tables == WithHeartbeat(w.tables, d.r.device, d.now)
    ensures Handled(window, w, d).objects == w.objects
  {
    hide FlowOf, Noted, UniqueKeys, Landed, WithEvent, MessagesOnce, EventsOnce, AlarmsOnce;
    EventsAreAlwaysKept(window, w, d);
    if d.r.blocked { BlockedIsNotKept(window, w, d); }
    BaseKeepsRest(w.tables, d.r, FlowOf(window, w, d), d.now);
  }

  lemma BlockedIsNotKept(window: int, w: World, d: Delivery)
    requires d.ctx.Some? && d.r.blocked
    ensures !FlowOf(window, w, d).persistEvent
  {
  }

  // ---- When a transaction goes through -----------------------------------------------------------------------

  // How many images of the message were stored.
  function StoredImages(media: seq<Media>, shas: set<string>): nat {
    if media == [] then 0
    else StoredImages(media[..|media| - 1], shas) + if media[|media| - 1].sha in shas then 1 else 0
  }

  lemma {:induction false} AssetsCounted(media: seq<Media>, shas: set<string>, event: nat, key: StorageKey)
    ensures |Assets(media, shas, event, key)| == StoredImages(media, shas)
  {
    if media != [] { AssetsCounted(media[..|media| - 1], shas, event, key); }
  }

  // ONE SNAPSHOT A MESSAGE. A delivery that makes an event goes through exactly when at most one of its
  // images was stored; all of them share the key of the event. Any other delivery goes through.
  lemma GoesThroughExactly(window: int, w: World, d: Delivery)
    requires Sound(w.tables) && d.ctx.Some?
    ensures GoesThrough(window, w, d)
        <==> || !YieldsEvent(d.r) || EventOf(w.tables, d.r.messageId).Some?
             || StoredImages(d.r.media, Landed(d.r.media, d.stores)) <= 1
  {
    hide FlowOf, Noted, Landed, MessagesOnce, AlarmsOnce, StoredImages;
    EventsAreAlwaysKept(window, w, d);
    var o, shas := FlowOf(window, w, d), Landed(d.r.media, d.stores);
    BaseKeepsRest(w.tables, d.r, o, d.now);
    if MakesEvent(w.tables, d.r, o) {
      var t, key := w.tables, KeyOf(d.r.event.value, w.tables.nextId);
      AssetsCounted(d.r.media, shas, t.nextId, key);
      OneKeyOnce(t, Assets(d.r.media, shas, t.nextId, key), key);
    }
  }

  lemma OneKeyOnce(t: Tables, rows: seq<MediaRow>, key: StorageKey)
    requires MediaSound(t) && EventsOnce(t) && key.event == t.nextId
    requires forall i :: 0 <= i < |rows| ==> rows[i].key == key
    ensures UniqueKeys(t.media + rows) <==> |rows| <= 1
  {
    forall i | 0 <= i < |t.media|
      ensures t.media[i].key != key
    {
      assert Names(t, t.media[i].event);
    }
    if |rows| > 1 {
      assert (t.media + rows)[|t.media|].key == (t.media + rows)[|t.media| + 1].key;
    }
  }

  // ---- What media rows point at --------------------------------------------------------------------------------

  ghost predicate Points(objects: Objects, row: MediaRow) { row.key in objects && objects[row.key] == row.sha }

  // Every media row names an object that exists and holds the image with its digest.
  ghost predicate MediaStored(w: World) {
    forall i :: 0 <= i < |w.tables.media| ==> Points(w.objects, w.tables.media[i])
  }

  lemma {:induction false} PutElsewhere(objects: Objects, key: StorageKey, media: seq<Media>, stores: nat -> bool,
                                        other: StorageKey)
    requires other != key
    ensures var after := Put(objects, key, media, stores);
            (other in after <==> other in objects) && (other in objects ==> after[other] == objects[other])
  {
    if media != [] { PutElsewhere(objects, key, media[..|media| - 1], stores, other); }
  }

  // The key holds the last image that landed.
  lemma {:induction false} PutHolds(objects: Objects, key: StorageKey, media: seq<Media>, stores: nat -> bool)
    requires Landed(media, stores) != {}
    ensures var after := Put(objects, key, media, stores); key in after && after[key] in Landed(media, stores)
  {
    var n := |media| - 1;
    if !stores(n) {
      assert Landed(media, stores) == Landed(media[..n], stores);
      PutHolds(objects, key, media[..n], stores);
    }
  }

  lemma {:induction false} LandedIsImage(media: seq<Media>, stores: nat -> bool, sha: string) returns (i: nat)
    requires sha in Landed(media, stores)
    ensures i < |media| && media[i].sha == sha
  {
    var n := |media| - 1;
    if sha in Landed(media[..n], stores) { i := LandedIsImage(media[..n], stores, sha); } else { i := n; }
  }

  lemma {:induction false} ImageHasRow(media: seq<Media>, shas: set<string>, event: nat, key: StorageKey, i: nat)
    returns (k: nat)
    requires i < |media| && media[i].sha in shas
    ensures var rows := Assets(media, shas, event, key); k < |rows| && rows[k].sha == media[i].sha
  {
    var n := |media| - 1;
    if i < n { k := ImageHasRow(media[..n], shas, event, key, i); } else { k := |Assets(media[..n], shas, event, key)|; }
  }

  lemma {:induction false} RowsComeFromImages(media: seq<Media>, shas: set<string>, event: nat, key: StorageKey)
    ensures forall k :: 0 <= k < |Assets(media, shas, event, key)| ==> Assets(media, shas, event, key)[k].sha in shas
  {
    if media != [] { RowsComeFromImages(media[..|media| - 1], shas, event, key); }
  }

  // The one row of an event points at its image.
  lemma OneRowPoints(objects: Objects, event: nat, key: StorageKey, media: seq<Media>, stores: nat -> bool)
    requires |Assets(media, Landed(media, stores), event, key)| <= 1
    ensures forall k :: 0 <= k < |Assets(media, Landed(media, stores), event, key)| ==>
                          Points(Put(objects, key, media, stores), Assets(media, Landed(media, stores), event, key)[k])
  {
    hide Assets, Landed, Put;
    var shas := Landed(media, stores);
    var rows := Assets(media, shas, event, key);
    RowsComeFromImages(media, shas, event, key);
    if rows != [] {
      assert rows[0].sha in shas;
      PutHolds(objects, key, media, stores);
      var i := LandedIsImage(media, stores, Put(objects, key, media, stores)[key]);
      var k := ImageHasRow(media, shas, event, key, i);
      assert k == 0;
    }
  }

  lemma OldRowsStillPoint(w: World, d: Delivery, o: Outcome)
    requires MediaSound(w.tables) && EventsOnce(w.tables) && MediaStored(w)
    ensures MediaStored(w.(objects := Uploaded(w, d, o)))
  {
    hide Put;
    forall i | 0 <= i < |w.tables.media|
      ensures Points(Uploaded(w, d, o), w.tables.media[i])
    {
      assert Points(w.objects, w.tables.media[i]) && Names(w.tables, w.tables.media[i].event);
      if Uploads(w.tables, d.r, o) {
        var key := KeyOf(d.r.event.value, w.tables.nextId);
        PutElsewhere(w.objects, key, d.r.media, d.stores, w.tables.media[i].key);
      }
    }
  }

  lemma DeliveryStoresMedia(window: int, w: World, d: Delivery)
    requires Sound(w.tables) && MediaStored(w)
    ensures MediaStored(Handled(window, w, d))
  {
    hide FlowOf, Noted, Landed, Put, Assets, MessagesOnce, AlarmsOnce, Points, Uploaded;
    if d.ctx.Some? {
      var o, shas, t := FlowOf(window, w, d), Landed(d.r.media, d.stores), w.tables;
      OldRowsStillPoint(w, d, o);
      BaseKeepsRest(t, d.r, o, d.now);
      if MakesEvent(t, d.r, o) {
        var key := KeyOf(d.r.event.value, t.nextId);
        var rows := Assets(d.r.media, shas, t.nextId, key);
        OneKeyOnce(t, rows, key);
        if |rows| <= 1 {
          OneRowPoints(w.objects, t.nextId, key, d.r.media, d.stores);
          UploadedUnderKey(w, d, o);
        }
      }
    }
  }

  lemma UploadedUnderKey(w: World, d: Delivery, o: Outcome)
    requires MakesEvent(w.tables, d.r, o)
    ensures Uploaded(w, d, o) == Put(w.objects, KeyOf(d.r.event.value, w.tables.nextId), d.r.media, d.stores)
  {
  }

  // SNAPSHOT BEFORE ROWS. Over any run, refused transactions and failed uploads included, every committed media
  // row points at an object that exists, and that object is the image the row describes.
  lemma {:induction false} RunsStoreMedia(window: int, w: World, steps: seq<Step>)
    requires Sound(w.tables) && MediaStored(w)
    ensures MediaStored(Run(window, w, steps))
  {
    hide Sound, Handled, MediaStored;
    if steps != [] {
      var before, last := Run(window, w, steps[..|steps| - 1]), steps[|steps| - 1];
      RunsStoreMedia(window, w, steps[..|steps| - 1]);
      RunsStaySound(window, w, steps[..|steps| - 1]);
      match last
      case Deliver(d) => DeliveryStoresMedia(window, before, d);
      case Restart => RestartKeepsMedia(before);
    }
  }

  lemma RestartKeepsMedia(w: World)
    requires MediaStored(w)
    ensures MediaStored(w.(entries := map[]))
  {
  }

  // ---- Resending after a refusal -----------------------------------------------------------------------------

  // The delivery as the alarm flow takes it.
  function TurnOf(d: Delivery): Turn
    requires d.ctx.Some?
  {
    Turn(d.r, d.ctx.value, d.outages, AI_UNAVAILABLE, MomentOf(d.r, None))
  }

  lemma DeliveryIsTurn(window: int, w: World, d: Delivery)
    requires d.ctx.Some?
    ensures FlowOf(window, w, d) == OutcomeOf(window, w.entries, TurnOf(d))
    ensures Handled(window, w, d).entries == AlarmFlow.Next(window, w.entries, TurnOf(d))
  {
    hide Outcomes, Sight, Noted, Written, Committed, UniqueKeys;
  }

  // The window of the key opened at `since` or later.
  predicate OpenSince(w: World, key: string, since: int) { key in w.entries && w.entries[key].firstSeen >= since }

  predicate NoRestart(steps: seq<Step>) { forall i :: 0 <= i < |steps| ==> steps[i].Deliver? }

  lemma {:induction false} StaysOpen(window: int, w: World, steps: seq<Step>, key: string, since: int)
    requires window >= 0 && OpenSince(w, key, since) && NoRestart(steps)
    ensures OpenSince(Run(window, w, steps), key, since)
  {
    hide Handled, AlarmFlow.Next;
    if steps != [] {
      var before, d := Run(window, w, steps[..|steps| - 1]), steps[|steps| - 1].d;
      StaysOpen(window, w, steps[..|steps| - 1], key, since);
      if d.ctx.Some? {
        DeliveryIsTurn(window, before, d);
        NextKeepsOrOpens(window, before.entries, TurnOf(d), key);
      } else {
        NowhereToStore(window, before, d);
      }
    }
  }

  lemma NowhereToStore(window: int, w: World, d: Delivery)
    requires d.ctx.None?
    ensures Handled(window, w, d) == w
  {
  }

  lemma OnlyAlarmsRaise(window: int, w: World, d: Delivery)
    requires d.ctx.Some? && FlowOf(window, w, d).stage != ALARMED
    ensures Handled(window, w, d).tables.alarms == w.tables.alarms
  {
    hide FlowOf, Noted, UniqueKeys, Landed;
    BaseKeepsRest(w.tables, d.r, FlowOf(window, w, d), d.now);
  }

  lemma InsideWindowIsDuplicate(window: int, w: World, d: Delivery, since: int)
    requires d.ctx.Some? && d.r.event.Some? && OpenSince(w, d.r.event.value.dedupKey, since)
    requires MomentOf(d.r, None) < since + window
    ensures FlowOf(window, w, d).stage != ALARMED
  {
    hide Scored, EvaluationContext;
  }

  // A REFUSED ALARM IS LOST. When the transaction of an alarm is refused nothing is stored, yet its window is
  // open: however often the message, or any of its key, comes again inside the window, no alarm is raised, as
  // long as the process does not restart.
  lemma RefusedAlarmIsLost(window: int, w: World, first: Delivery, between: seq<Step>, again: Delivery)
    requires NoRestart(between)
    requires window >= 0 && first.ctx.Some? && first.r.event.Some? && again.ctx.Some? && again.r.event.Some?
    requires FlowOf(window, w, first).stage == ALARMED && !GoesThrough(window, w, first)
    requires again.r.event.value.dedupKey == first.r.event.value.dedupKey
    requires MomentOf(again.r, None) < MomentOf(first.r, None) + window
    ensures Handled(window, w, first).tables == w.tables
    ensures var later := Run(window, Handled(window, w, first), between);
            && FlowOf(window, later, again).stage != ALARMED
            && Handled(window, later, again).tables.alarms == later.tables.alarms
  {
    hide Written, FlowOf, Run, AlarmFlow.Next, OutcomeOf, MomentOf;
    var key, since := first.r.event.value.dedupKey, MomentOf(first.r, None);
    DeliveryIsTurn(window, w, first);
    AlarmOpensWindow(window, w.entries, TurnOf(first), key);
    StaysOpen(window, Handled(window, w, first), between, key, since);
    var later := Run(window, Handled(window, w, first), between);
    InsideWindowIsDuplicate(window, later, again, since);
    OnlyAlarmsRaise(window, later, again);
  }
}
