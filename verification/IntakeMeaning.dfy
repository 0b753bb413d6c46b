// What a delivery leaves in the tables, row by row.
module IntakeMeaning {
  import opened AlarmFlow
  import opened Clock
  import opened Intake
  import opened IntakeRuns
  import opened Options
  import opened Risk
  import FleetWatch
  import Rules

  // No row of the message yet; and no event of it, which a message without an id never has.
  ghost predicate NewMessage(t: Tables, r: IngestResult) {
    forall k :: 0 <= k < |t.messages| ==> t.messages[k].messageId != r.messageId
  }

  ghost predicate NewEvent(t: Tables, r: IngestResult) {
    && !r.blocked && r.event.Some?
    && (r.messageId != "" ==> forall k :: 0 <= k < |t.events| ==> t.events[k].messageId != r.messageId)
  }

  // The severity whose band the score lies in.
  predicate InBand(score: int, s: Severity) {
    match s
    case Critical => 85 <= score
    case High => 70 <= score < 85
    case Medium => 50 <= score < 70
    case Low => 30 <= score < 50
    case Info => score < 30
  }

  lemma BandOfScore(score: int)
    ensures InBand(score, SeverityFor(score))
  {
  }

  // The event as it was received and decided: what no rule was asked about scores nothing.
  predicate IsEventRow(e: EventRow, id: nat, r: IngestResult, o: Outcome) {
    && r.event.Some? && e.id == id && e.messageId == r.messageId && e.device == r.device
    && e.dedupKey == r.event.value.dedupKey && e.occurrences == o.occurrences && o.status == Some(e.status)
    && e.score == (if o.decision.Some? then o.decision.value.risk.score else 0) && InBand(e.score, e.severity)
  }

  // A snapshot of the event: filed under its site, the day it was received and its id.
  predicate IsSnapshot(m: MediaRow, id: nat, e: IngestedEvent) {
    && m.event == id && m.key.event == id && m.key.site == e.site
    && m.key.day * DAY <= e.receivedAt < (m.key.day + 1) * DAY
  }

  lemma DecidedStatus(window: int, w: World, d: Delivery)
    requires d.ctx.Some? && d.r.event.Some? && !d.r.blocked
    ensures var o := FlowOf(window, w, d);
            && o.status.Some? && o.persistEvent && o.stage != BLOCKED
            && (o.decision.Some? <==> o.stage == ALARMED || o.stage == NO_RULE_MATCH)
  {
    hide Scored, EvaluationContext;
  }

  lemma UndecidedStatus(window: int, w: World, d: Delivery)
    requires d.ctx.Some? && (d.r.event.None? || d.r.blocked)
    ensures var o := FlowOf(window, w, d);
            !o.persistEvent && o.decision.None? && (o.stage == BLOCKED <==> d.r.blocked)
  {
  }

  lemma NewEventIsMade(window: int, w: World, d: Delivery)
    requires d.ctx.Some?
    ensures MakesEvent(w.tables, d.r, FlowOf(window, w, d)) <==> NewEvent(w.tables, d.r)
  {
    hide FlowOf;
    EventsAreAlwaysKept(window, w, d);
    if d.r.messageId != "" { FindExactly(w.tables.events, d.r.messageId); }
  }

  lemma NewMessageHasNone(t: Tables, r: IngestResult)
    ensures NewMessage(t, r) <==> !HasMessage(t.messages, r.messageId)
  {
  }

  // The label on a delivery: blocked, scored by the rules, or not.
  predicate IsLabel(said: Label, r: IngestResult, o: Outcome) {
    if r.blocked then said == Blocked else if o.stage in {ALARMED, NO_RULE_MATCH} then said == Parsed else said == Unparsed
  }

  lemma LabelMeans(window: int, w: World, d: Delivery)
    requires d.ctx.Some?
    ensures IsLabel(LabelOf(FlowOf(window, w, d)), d.r, FlowOf(window, w, d))
  {
    hide FlowOf;
    if d.r.event.Some? && !d.r.blocked { DecidedStatus(window, w, d); } else { UndecidedStatus(window, w, d); }
    UndecidedStage(window, w, d);
  }

  lemma UndecidedStage(window: int, w: World, d: Delivery)
    requires d.ctx.Some?
    ensures var o := FlowOf(window, w, d); o.stage in {ALARMED, NO_RULE_MATCH} <==> o.decision.Some?
  {
    hide Scored, EvaluationContext;
  }

  // The message and its sample are stored once, and the recorder's heartbeat every time.
  ghost predicate MessageStored(before: Tables, after: Tables, r: IngestResult, o: Outcome, now: int) {
    && after.heartbeats == FleetWatch.Heartbeat(before.heartbeats, r.device, now)
    && (!NewMessage(before, r) ==> after.messages == before.messages && after.samples == before.samples)
    && (NewMessage(before, r) ==>
          && |after.messages| == |before.messages| + 1 && after.messages[..|before.messages|] == before.messages
          && after.messages[|before.messages|].messageId == r.messageId
          && after.messages[|before.messages|].device == r.device
          && IsLabel(after.messages[|before.messages|].parsed, r, o)
          && after.samples == before.samples + if r.rawSample then [r.messageId] else [])
  }

  // The event takes one row, an alarm of it one more with the event's severity, and each stored picture one.
  ghost predicate EventStored(before: Tables, after: Tables, r: IngestResult, o: Outcome)
    requires r.event.Some?
  {
    var id := before.nextId;
    && |after.events| == |before.events| + 1 && after.events[..|before.events|] == before.events
    && IsEventRow(after.events[|before.events|], id, r, o)
    && (o.stage != ALARMED ==> after.alarms == before.alarms)
    && (o.stage == ALARMED ==>
          && |after.alarms| == |before.alarms| + 1 && after.alarms[..|before.alarms|] == before.alarms
          && after.alarms[|before.alarms|].event == id && after.alarms[|before.alarms|].id != id
          && after.alarms[|before.alarms|].severity == after.events[|before.events|].severity)
    && |before.media| <= |after.media| && after.media[..|before.media|] == before.media
    && (forall k :: |before.media| <= k < |after.media| ==> IsSnapshot(after.media[k], id, r.event.value))
    && after.nextId > id && (o.stage == ALARMED ==> after.alarms[|before.alarms|].id < after.nextId)
  }

  lemma MessageIsStored(t: Tables, r: IngestResult, o: Outcome, shas: set<string>, now: int)
    requires IsLabel(LabelOf(o), r, o)
    ensures MessageStored(t, Written(t, r, o, shas, now), r, o, now)
  {
    hide LabelOf, IsLabel, Assets, AlarmsOf, HasMessage, NewMessage, FleetWatch.Heartbeat;
    NewMessageHasNone(t, r);
  }

  lemma EventIsStored(t: Tables, r: IngestResult, o: Outcome, shas: set<string>, now: int)
    requires MakesEvent(t, r, o) && o.status.Some? && (o.stage == ALARMED ==> o.decision.Some?)
    ensures EventStored(t, Written(t, r, o, shas, now), r, o)
  {
    hide HasMessage, WithMessage, WithHeartbeat;
    BaseKeepsRest(t, r, o, now);
    BandOfScore(if o.decision.Some? then o.decision.value.risk.score else 0);
  }

  // WHAT A DELIVERY WRITES. One that goes through stores its message unless that is known, the heartbeat, and its
  // event unless it has none or that is known; the event brings its alarm and its pictures.
  lemma WhatADeliveryWrites(window: int, w: World, d: Delivery)
    requires GoesThrough(window, w, d)
    ensures var o, before, after := FlowOf(window, w, d), w.tables, Handled(window, w, d).tables;
            && MessageStored(before, after, d.r, o, d.now)
            && (NewEvent(before, d.r) ==> EventStored(before, after, d.r, o))
            && (!NewEvent(before, d.r) ==>
                  after.events == before.events && after.alarms == before.alarms && after.media == before.media)
  {
    hide FlowOf, MessageStored, EventStored, NewEvent, Written, Landed, UniqueKeys;
    var o, shas := FlowOf(window, w, d), Landed(d.r.media, d.stores);
    LabelMeans(window, w, d);
    MessageIsStored(w.tables, d.r, o, shas, d.now);
    NewEventIsMade(window, w, d);
    if NewEvent(w.tables, d.r) {
      NewEventHasEvent(w.tables, d.r);
      DecidedStatus(window, w, d);
      EventIsStored(w.tables, d.r, o, shas, d.now);
    } else {
      NothingElse(w.tables, d.r, o, shas, d.now);
    }
  }

  lemma NewEventHasEvent(t: Tables, r: IngestResult)
    requires NewEvent(t, r)
    ensures r.event.Some? && !r.blocked
  {
  }

  lemma NothingElse(t: Tables, r: IngestResult, o: Outcome, shas: set<string>, now: int)
    requires !MakesEvent(t, r, o)
    ensures var m := Written(t, r, o, shas, now); m.events == t.events && m.alarms == t.alarms && m.media == t.media
  {
    hide WithMessage, WithHeartbeat;
    BaseKeepsRest(t, r, o, now);
  }
}
