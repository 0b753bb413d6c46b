// From a delivered message to committed rows: the flow, the snapshot upload, one transaction, the push.
module Intake {
  import opened AlarmFlow
  import opened Clock
  import opened Options
  import opened Risk
  import Dedup
  import FleetWatch
  import Suppression

  // ---- The tables ---------------------------------------------------------------------------------------

  datatype Label = Parsed | Unparsed | Blocked

  datatype MessageRow = MessageRow(messageId: string, device: nat, parsed: Label)

  datatype EventRow = EventRow(
    id: nat, messageId: string, device: nat, dedupKey: string, occurrences: nat, status: EventStatus, score: int,
    severity: Severity)

  // {tenant}/{site}/{date}/{event}/snapshot.jpg: the same for every snapshot of an event.
  datatype StorageKey = StorageKey(site: nat, day: int, event: nat)

  datatype MediaRow = MediaRow(event: nat, key: StorageKey, sha: string)

  datatype AlarmRow = AlarmRow(id: nat, event: nat, severity: Severity)

  // Identifiers are random and never repeat: nextId is in no row.
  datatype Tables = Tables(
    messages: seq<MessageRow>, samples: seq<string>, events: seq<EventRow>, media: seq<MediaRow>,
    alarms: seq<AlarmRow>, heartbeats: FleetWatch.Rows, nextId: nat)

  const EMPTY: Tables := Tables([], [], [], [], [], map[], 0)

  function KeyOf(e: IngestedEvent, event: nat): StorageKey { StorageKey(e.site, e.receivedAt / DAY, event) }

  predicate HasMessage(messages: seq<MessageRow>, messageId: string) {
    exists k :: 0 <= k < |messages| && messages[k].messageId == messageId
  }

  function FindEvent(events: seq<EventRow>, messageId: string): Option<nat>
    decreases |events|
  {
    if events == [] then None
    else if events[0].messageId == messageId then Some(events[0].id)
    else FindEvent(events[1..], messageId)
  }

  // An empty message id is no identity.
  function EventOf(t: Tables, messageId: string): Option<nat> {
    if messageId == "" then None else FindEvent(t.events, messageId)
  }

  predicate UniqueKeys(media: seq<MediaRow>) { forall i, j :: 0 <= i < j < |media| ==> media[i].key != media[j].key }

  // ---- What one message writes ----------------------------------------------------------------------------

  function LabelOf(o: Outcome): Label {
    if o.stage == BLOCKED then Blocked else if o.decision.Some? then Parsed else Unparsed
  }

  function WithMessage(t: Tables, r: IngestResult, o: Outcome): Tables {
    if HasMessage(t.messages, r.messageId) then t
    else t.(messages := t.messages + [MessageRow(r.messageId, r.device, LabelOf(o))],
            samples := if r.rawSample then t.samples + [r.messageId] else t.samples)
  }

  function WithHeartbeat(t: Tables, device: nat, now: int): Tables {
    t.(heartbeats := FleetWatch.Heartbeat(t.heartbeats, device, now))
  }

  // A media row for each image whose digest was stored.
  function Assets(media: seq<Media>, shas: set<string>, event: nat, key: StorageKey): (rows: seq<MediaRow>)
    ensures forall i :: 0 <= i < |rows| ==> rows[i].event == event && rows[i].key == key
  {
    if media == [] then []
    else
      var n := |media| - 1;
      var rest := Assets(media[..n], shas, event, key);
      if media[n].sha in shas then rest + [MediaRow(event, key, media[n].sha)] else rest
  }

  function EventRowOf(r: IngestResult, o: Outcome, id: nat): EventRow
    requires r.event.Some?
  {
    EventRow(id, r.messageId, r.device, r.event.value.dedupKey, o.occurrences, o.status.UnwrapOr(New),
             if o.decision.Some? then o.decision.value.risk.score else 0,
             if o.decision.Some? then SeverityFor(o.decision.value.risk.score) else Info)
  }

  predicate RaisesAlarm(o: Outcome) { o.stage == ALARMED && o.decision.Some? }

  function AlarmsOf(o: Outcome, id: nat, event: nat): seq<AlarmRow> {
    if RaisesAlarm(o) then [AlarmRow(id, event, SeverityFor(o.decision.value.risk.score))] else []
  }

  // The event takes the next identifier and its alarm the one after.
  function WithEvent(t: Tables, r: IngestResult, o: Outcome, shas: set<string>): Tables
    requires r.event.Some?
  {
    t.(events := t.events + [EventRowOf(r, o, t.nextId)],
       media := t.media + Assets(r.media, shas, t.nextId, KeyOf(r.event.value, t.nextId)),
       alarms := t.alarms + AlarmsOf(o, t.nextId + 1, t.nextId),
       nextId := t.nextId + 2)
  }

  predicate MakesEvent(t: Tables, r: IngestResult, o: Outcome) {
    !r.blocked && o.persistEvent && r.event.Some? && EventOf(t, r.messageId).None?
  }

  function Written(t: Tables, r: IngestResult, o: Outcome, shas: set<string>, now: int): Tables {
    var base := WithHeartbeat(WithMessage(t, r, o), r.device, now);
    if MakesEvent(t, r, o) then WithEvent(base, r, o, shas) else base
  }

  // The transaction: all of it, or none when two rows would share a storage key.
  function Committed(t: Tables, written: Tables): Tables { if UniqueKeys(written.media) then written else t }

  // ---- The session ------------------------------------------------------------------------------------------

  // What the open transaction sees.
  class Session {
    var t: Tables

    constructor (t: Tables)
      ensures this.t == t
    {
      this.t := t;
    }

    method ExistingEventId(messageId: string) returns (id: Option<nat>)
      ensures id == EventOf(t, messageId)
    {
      if messageId == "" {
        return None;
      }
      for i := 0 to |t.events|
        invariant FindEvent(t.events, messageId) == FindEvent(t.events[i..], messageId)
      {
        if t.events[i].messageId == messageId {
          return Some(t.events[i].id);
        }
      }
      id := None;
    }

    method RecordMessage(r: IngestResult, o: Outcome)
      modifies this
      ensures t == WithMessage(old(t), r, o)
    {
      for i := 0 to |t.messages|
        invariant t == old(t)
        invariant forall k :: 0 <= k < i ==> t.messages[k].messageId != r.messageId
      {
        if t.messages[i].messageId == r.messageId {
          return;
        }
      }
      t := t.(messages := t.messages + [MessageRow(r.messageId, r.device, LabelOf(o))]);
      if r.rawSample {
        t := t.(samples := t.samples + [r.messageId]);
      }
    }

    method TouchHeartbeat(device: nat, now: int)
      modifies this
      ensures t == WithHeartbeat(old(t), device, now)
    {
      var fleet := new FleetWatch.FleetDb([]);
      fleet.rows := t.heartbeats;
      fleet.TouchHeartbeat(device, now);
      t := t.(heartbeats := fleet.rows);
    }

    // Returns the event and alarm ids, and whether the flush went through.
    method PersistFlow(r: IngestResult, o: Outcome, shas: set<string>, now: int)
      returns (event: Option<nat>, alarm: Option<nat>, flushed: bool)
      modifies this
      ensures t == Written(old(t), r, o, shas, now)
      ensures flushed == UniqueKeys(t.media)
      ensures MakesEvent(old(t), r, o) ==>
                event == Some(old(t).nextId) && alarm == if RaisesAlarm(o) then Some(old(t).nextId + 1) else None
      ensures !MakesEvent(old(t), r, o) ==>
                && alarm == None
                && event == if r.blocked || !o.persistEvent || r.event.None? then None else EventOf(old(t), r.messageId)
    {
      hide WithHeartbeat, Assets, UniqueKeys, LabelOf;
      RecordMessage(r, o);
      TouchHeartbeat(r.device, now);
      BaseKeepsRest(old(t), r, o, now);
      if r.blocked || !o.persistEvent || r.event.None? {
        return None, None, UniqueKeys(t.media);
      }
      var existing := ExistingEventId(r.messageId);
      if existing.Some? {
        return existing, None, UniqueKeys(t.media);
      }
      var id := t.nextId;
      var score := if o.decision.Some? then o.decision.value.risk.score else 0;
      t := t.(events := t.events + [EventRow(id, r.messageId, r.device, r.event.value.dedupKey, o.occurrences,
                                             o.status.UnwrapOr(New), score,
                                             if o.decision.Some? then SeverityFor(score) else Info)],
              nextId := id + 2);
      t := t.(media := t.media + Assets(r.media, shas, id, KeyOf(r.event.value, id)));
      alarm := None;
      if o.stage == ALARMED && o.decision.Some? {
        t := t.(alarms := t.alarms + [AlarmRow(id + 1, id, SeverityFor(o.decision.value.risk.score))]);
        alarm := Some(id + 1);
      } else {
        assert t.alarms + [] == t.alarms;
      }
      event, flushed := Some(id), UniqueKeys(t.media);
    }
  }

  lemma BaseKeepsRest(t: Tables, r: IngestResult, o: Outcome, now: int)
    ensures var base := WithHeartbeat(WithMessage(t, r, o), r.device, now);
            base.events == t.events && base.media == t.media && base.alarms == t.alarms && base.nextId == t.nextId
  {
  }

  // ---- The intake ---------------------------------------------------------------------------------------------

  // What an app that is already open is shown.
  datatype Frame = NoFrame | EventFrame(event: nat) | AlarmFrame(about: Option<nat>)

  // `raised` is the database refusing the transaction; `notified` the alarm phones were pushed for.
  datatype Result = Result(
    raised: bool, event: Option<nat>, alarm: Option<nat>, duplicate: bool, frame: Frame, notified: Option<nat>)

  // Whatever carries a push is broadcast as an alarm, a resend included.
  function FrameFor(push: bool, event: Option<nat>, r: IngestResult): Frame {
    if push then AlarmFrame(event) else if event.Some? && r.event.Some? then EventFrame(event.value) else NoFrame
  }

  // The notifier stays quiet when there is no alarm row behind the push.
  function Notify(push: bool, alarm: Option<nat>): Option<nat> { if push && alarm.Some? then alarm else None }

  datatype Delivery = Delivery(
    r: IngestResult, ctx: Option<SiteContext>, outages: Suppression.Outages, stores: nat -> bool, now: int)

  // The bucket: which image each key holds. Nothing deletes from it.
  type Objects = map<StorageKey, string>

  datatype World = World(tables: Tables, entries: Dedup.Entries, objects: Objects)

  // The digests whose upload landed; stores(i) is whether image i is accepted.
  function Landed(media: seq<Media>, stores: nat -> bool): set<string> {
    if media == [] then {}
    else
      var n := |media| - 1;
      Landed(media[..n], stores) + if stores(n) then {media[n].sha} else {}
  }

  // The bucket after the uploads of one event: its accepted images, each over the one before.
  function Put(objects: Objects, key: StorageKey, media: seq<Media>, stores: nat -> bool): Objects {
    if media == [] then objects
    else
      var n := |media| - 1;
      var before := Put(objects, key, media[..n], stores);
      if stores(n) then before[key := media[n].sha] else before
  }

  // Images are uploaded before any row is written, and only for a message without an event.
  predicate Uploads(t: Tables, r: IngestResult, o: Outcome) {
    o.persistEvent && r.event.Some? && EventOf(t, r.messageId).None?
  }

  function Uploaded(w: World, d: Delivery, o: Outcome): Objects {
    if Uploads(w.tables, d.r, o)
    then Put(w.objects, KeyOf(d.r.event.value, w.tables.nextId), d.r.media, d.stores)
    else w.objects
  }

  function FlowOf(window: int, w: World, d: Delivery): Outcome
    requires d.ctx.Some?
  {
    var moment := MomentOf(d.r, None);
    Outcomes(d.r, d.ctx.value, d.outages, Sight(window, w.entries, d.r, moment), AI_UNAVAILABLE, moment)
  }

  function Handled(window: int, w: World, d: Delivery): World {
    if d.ctx.None? then w
    else
      var o := FlowOf(window, w, d);
      var written := Written(w.tables, d.r, o, Landed(d.r.media, d.stores), d.now);
      World(Committed(w.tables, written), Noted(window, w.entries, d.r, d.outages, MomentOf(d.r, None)),
            Uploaded(w, d, o))
  }

  // Without a new event the uploads do not matter.
  lemma WrittenWithoutUpload(t: Tables, r: IngestResult, o: Outcome, shas: set<string>, now: int)
    requires !MakesEvent(t, r, o)
    ensures Written(t, r, o, shas, now) == Written(t, r, o, {}, now)
  {
  }

  // The transaction of a delivery goes through.
  predicate GoesThrough(window: int, w: World, d: Delivery) {
    d.ctx.Some? && UniqueKeys(Written(w.tables, d.r, FlowOf(window, w, d), Landed(d.r.media, d.stores), d.now).media)
  }

  // The event the message is known by, before or after this call.
  function EventId(t: Tables, r: IngestResult, o: Outcome): Option<nat> {
    if r.blocked || !o.persistEvent || r.event.None? then None
    else if EventOf(t, r.messageId).Some? then EventOf(t, r.messageId)
    else Some(t.nextId)
  }

  function AlarmId(t: Tables, r: IngestResult, o: Outcome): Option<nat> {
    if MakesEvent(t, r, o) && RaisesAlarm(o) then Some(t.nextId + 1) else None
  }

  predicate IsResend(t: Tables, r: IngestResult, o: Outcome) {
    o.persistEvent && r.event.Some? && EventOf(t, r.messageId).Some?
  }

  // What the call answers, and whom it tells.
  function ReplyTo(window: int, w: World, d: Delivery): Result {
    if d.ctx.None? then Result(false, None, None, false, NoFrame, None)
    else
      var o := FlowOf(window, w, d);
      var duplicate := IsResend(w.tables, d.r, o);
      if !GoesThrough(window, w, d) then Result(true, None, None, duplicate, NoFrame, None)
      else
        var event, alarm := EventId(w.tables, d.r, o), AlarmId(w.tables, d.r, o);
        Result(false, event, alarm, duplicate, FrameFor(o.push, event, d.r), if o.push then alarm else None)
  }

  class MediaStore {
    var objects: Objects

    constructor (objects: Objects)
      ensures this.objects == objects
    {
      this.objects := objects;
    }

    // Raises for what is not an image, or when the upload fails.
    method PutImage(key: StorageKey, image: Media, accepted: bool) returns (stored: bool)
      modifies this
      ensures stored == accepted
      ensures objects == if accepted then old(objects)[key := image.sha] else old(objects)
    {
      if accepted {
        objects := objects[key := image.sha];
      }
      stored := accepted;
    }
  }

  class MailIntake {
    var db: Tables
    const dedup: Dedup.DedupWindow
    const outages: Suppression.OutageState
    const media: MediaStore

    constructor (db: Tables, dedup: Dedup.DedupWindow, outages: Suppression.OutageState, media: MediaStore)
      ensures this.db == db && this.dedup == dedup && this.outages == outages && this.media == media
    {
      this.db, this.dedup, this.outages, this.media := db, dedup, outages, media;
    }

    function Contents(): World
      reads this, dedup, media
    {
      World(db, dedup.entries, media.objects)
    }

    method Upload(r: IngestResult, key: StorageKey, stores: nat -> bool) returns (shas: set<string>)
      modifies media
      ensures shas == Landed(r.media, stores)
      ensures media.objects == Put(old(media.objects), key, r.media, stores)
    {
      shas := {};
      for i := 0 to |r.media|
        invariant shas == Landed(r.media[..i], stores)
        invariant media.objects == Put(old(media.objects), key, r.media[..i], stores)
      {
        assert r.media[..i + 1][..i] == r.media[..i];
        var stored := media.PutImage(key, r.media[i], stores(i));
        if !stored {
          continue;
        }
        shas := shas + {r.media[i].sha};
      }
      assert r.media[..|r.media|] == r.media;
    }

    method Handle(d: Delivery) returns (out: Result)
      requires d.outages == outages.Known()
      modifies this`db, dedup`entries, media
      ensures Contents() == Handled(dedup.Window(None), old(Contents()), d)
      ensures out == ReplyTo(dedup.Window(None), old(Contents()), d)
    {
      hide Written, Landed, Put, Outcomes, Sight, Noted, UniqueKeys;
      out := Result(false, None, None, false, NoFrame, None);
      if d.ctx.None? {
        return;
      }
      var session := new Session(db);
      var outcome := Process(d.r, d.ctx.value, outages, dedup, None, None);
      var duplicate, shas := false, {};
      if outcome.persistEvent && d.r.event.Some? {
        var known := session.ExistingEventId(d.r.messageId);
        duplicate := known.Some?;
        if !duplicate {
          shas := Upload(d.r, KeyOf(d.r.event.value, db.nextId), d.stores);
        }
      }
      if !MakesEvent(old(db), d.r, outcome) {
        WrittenWithoutUpload(old(db), d.r, outcome, Landed(d.r.media, d.stores), d.now);
      }
      var event, alarm, flushed := session.PersistFlow(d.r, outcome, shas, d.now);
      if !flushed {
        return Result(true, None, None, duplicate, NoFrame, None);
      }
      db := session.t;
      var frame := FrameFor(outcome.push, event, d.r);
      var notified := None;
      if outcome.push {
        notified := Notify(outcome.push, alarm);
      }
      out := Result(false, event, alarm, duplicate, frame, notified);
    }
  }

  // ---- Who is told --------------------------------------------------------------------------------------------

  lemma PushMeansAlarm(window: int, w: World, d: Delivery)
    requires d.ctx.Some? && FlowOf(window, w, d).push
    ensures var o := FlowOf(window, w, d);
            RaisesAlarm(o) && o.persistEvent && !d.r.blocked && d.r.event.Some?
  {
    hide Scored, EvaluationContext;
  }

  // ROWS BEFORE PUSH. The alarm a call answers with is the row it has just committed, together with its event;
  // phones are pushed for it exactly when the flow carries a push, and never without it.
  lemma PushHasRow(window: int, w: World, d: Delivery)
    ensures var out, t := ReplyTo(window, w, d), Handled(window, w, d).tables;
            && (out.alarm.Some? ==>
                  && |t.alarms| == |w.tables.alarms| + 1 && |t.events| == |w.tables.events| + 1
                  && t.alarms[|t.alarms| - 1].id == out.alarm.value
                  && out.event == Some(t.alarms[|t.alarms| - 1].event) == Some(t.events[|t.events| - 1].id))
            && (out.alarm.None? ==> t.alarms == w.tables.alarms)
            && (out.notified.Some? <==> out.alarm.Some? && d.ctx.Some? && FlowOf(window, w, d).push)
            && (out.notified.Some? ==> out.notified == out.alarm)
  {
    hide FlowOf, UniqueKeys, Landed, Noted, Assets;
    if d.ctx.Some? {
      BaseKeepsRest(w.tables, d.r, FlowOf(window, w, d), d.now);
    }
  }

  // AN ALARM FRAME WITHOUT AN ALARM ROW goes out exactly on a resend of a stored message whose flow carries a
  // push again; it names the first event.
  lemma FrameWithoutRow(window: int, w: World, d: Delivery)
    ensures var out := ReplyTo(window, w, d);
            && (out.frame.AlarmFrame? && out.alarm.None?
                <==> GoesThrough(window, w, d) && FlowOf(window, w, d).push && EventOf(w.tables, d.r.messageId).Some?)
            && (out.frame.AlarmFrame? && out.alarm.None? ==>
                  out.duplicate && out.notified == None && out.frame == AlarmFrame(EventOf(w.tables, d.r.messageId)))
  {
    hide FlowOf, UniqueKeys, Landed, Written;
    if d.ctx.Some? && FlowOf(window, w, d).push { PushMeansAlarm(window, w, d); }
  }

  // WHO SEES WHAT: nothing of a call that was refused; an alarm frame of any other whose flow carries a push; and an
  // event frame of the rest that have an event.
  lemma FrameExactly(window: int, w: World, d: Delivery)
    ensures var out := ReplyTo(window, w, d);
            var pushed := GoesThrough(window, w, d) && FlowOf(window, w, d).push;
            && (out.frame.AlarmFrame? <==> pushed)
            && (out.frame.AlarmFrame? ==> out.frame.about == out.event && out.event.Some?)
            && (out.frame.EventFrame? <==> !pushed && out.event.Some?)
            && (out.frame.EventFrame? ==> Some(out.frame.event) == out.event)
            && (out.raised <==> d.ctx.Some? && !GoesThrough(window, w, d))
  {
    hide FlowOf, UniqueKeys, Landed, Written;
    if d.ctx.Some? && FlowOf(window, w, d).push { PushMeansAlarm(window, w, d); }
  }
}
