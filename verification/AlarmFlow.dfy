// One ingested message on its way to an alarm: suppression, then dedup, then the rules.
module AlarmFlow {
  import opened Options
  import opened Risk
  import Dedup
  import Escalation
  import Rules
  import Suppression
  import Zones

  datatype AiVerdict = AiVerdict(available: bool, confidence: Option<real>, boxes: seq<Zones.Box>)

  const AI_UNAVAILABLE: AiVerdict := AiVerdict(false, None, [])

  // dedupKey stands for tenant, site, device, channel and type together.
  datatype IngestedEvent = IngestedEvent(
    site: nat, device: nat, eventType: string, channel: Option<int>, receivedAt: int, dedupKey: string)

  datatype Media = Media(sha: string)

  datatype IngestResult = IngestResult(
    device: nat, messageId: string, event: Option<IngestedEvent>, media: seq<Media>, rawSample: bool, blocked: bool)

  // localTime reads an instant on the wall clock of a timezone.
  datatype SiteContext = SiteContext(
    timezone: string,
    localTime: (int, string) -> int,
    rules: seq<Rules.Rule>,
    cameras: map<int, string>,
    zones: map<string, seq<Zones.Zone>>,
    deviceSilent: bool,
    recentTamper: set<string>)

  datatype Stage = BLOCKED | NO_EVENT | SUPPRESSED | DUPLICATE | NO_RULE_MATCH | ALARMED

  datatype EventStatus = Suppressed | New | Alerted

  datatype Outcome = Outcome(
    stage: Stage,
    status: Option<EventStatus>,
    persistEvent: bool,
    occurrences: nat,
    decision: Option<Rules.Decision>,
    climb: Option<Escalation.Climb>,
    push: bool,
    cameraId: Option<string>)

  function ResolveCamera(ctx: SiteContext, channel: Option<int>): Option<string> {
    if channel.Some? && channel.value in ctx.cameras then Some(ctx.cameras[channel.value]) else None
  }

  function EvaluationContext(e: IngestedEvent, ctx: SiteContext, ai: AiVerdict): Rules.Context {
    var camera := ResolveCamera(ctx, e.channel);
    var id := camera.UnwrapOr("");
    Rules.Context(
      e.eventType, tz => ctx.localTime(e.receivedAt, tz), ctx.timezone, id,
      if id in ctx.zones then ctx.zones[id] else [],
      ai.boxes, ai.confidence, ai.available,
      id != "" && id in ctx.recentTamper, false, ctx.deviceSilent,
      e.eventType in {"line_crossing", "zone_intrusion"})
  }

  function Scored(e: IngestedEvent, ctx: SiteContext, ai: AiVerdict): Rules.Decision {
    Rules.Best(ctx.rules, EvaluationContext(e, ctx, ai))
  }

  // ---- What becomes of an event -------------------------------------------------------------------------

  predicate IsSuppressed(e: IngestedEvent, outages: Suppression.Outages) {
    Suppression.ShouldSuppress(e.eventType, e.site, e.device, outages).suppressed
  }

  // The event gets as far as the dedup window.
  predicate ReachesDedup(r: IngestResult, outages: Suppression.Outages) {
    !r.blocked && r.event.Some? && !IsSuppressed(r.event.value, outages)
  }

  function FirstSight(e: IngestedEvent, d: Rules.Decision, moment: int, camera: Option<string>): Outcome {
    if !d.matched then Outcome(NO_RULE_MATCH, Some(New), true, 1, Some(d), None, false, camera)
    else
      var policy := Escalation.PolicyFor(SeverityFor(d.risk.score) == Critical);
      Outcome(ALARMED, Some(Alerted), true, 1, Some(d),
              Some(Escalation.Climb(moment, policy, None, None, {})), Rules.Push in d.actions, camera)
  }

  function Outcomes(
    r: IngestResult, ctx: SiteContext, outages: Suppression.Outages, seen: Dedup.Decision, ai: AiVerdict, moment: int)
    : Outcome
  {
    if r.blocked then Outcome(BLOCKED, None, false, 1, None, None, false, None)
    else if r.event.None? then Outcome(NO_EVENT, None, false, 1, None, None, false, None)
    else
      var e, camera := r.event.value, ResolveCamera(ctx, r.event.value.channel);
      if IsSuppressed(e, outages) then Outcome(SUPPRESSED, Some(Suppressed), true, 1, None, None, false, camera)
      else if seen.isDuplicate then
        Outcome(DUPLICATE, Some(Suppressed), true, seen.totalInWindow, None, None, false, camera)
      else FirstSight(e, Scored(e, ctx, ai), moment, camera)
  }

  // The moment the flow counts from.
  function MomentOf(r: IngestResult, now: Option<int>): int {
    if now.Some? then now.value else if r.event.Some? then r.event.value.receivedAt else 0
  }

  // The verdict the window gives the event, had it got that far.
  function Sight(window: int, entries: Dedup.Entries, r: IngestResult, moment: int): Dedup.Decision {
    Dedup.Verdict(window, Dedup.Lookup(entries, if r.event.Some? then r.event.value.dedupKey else ""), moment)
  }

  // The window after the message.
  function Noted(
    window: int, entries: Dedup.Entries, r: IngestResult, outages: Suppression.Outages, moment: int): Dedup.Entries
  {
    if ReachesDedup(r, outages) then Dedup.After(window, entries, Dedup.Check(r.event.value.dedupKey, moment)) else entries
  }

  // SUPPRESSED AND BLOCKED MESSAGES LEAVE THE WINDOW UNTOUCHED, and only a first sighting is scored.
  method Process(
    r: IngestResult, ctx: SiteContext, outages: Suppression.OutageState, dedup: Dedup.DedupWindow,
    ai: Option<AiVerdict>, now: Option<int>) returns (o: Outcome)
    modifies dedup`entries
    ensures var moment, window := MomentOf(r, now), dedup.Window(None);
            && o == Outcomes(r, ctx, outages.Known(), Sight(window, old(dedup.entries), r, moment),
                             ai.UnwrapOr(AI_UNAVAILABLE), moment)
            && dedup.entries == Noted(window, old(dedup.entries), r, outages.Known(), moment)
  {
    hide Scored, Suppression.ShouldSuppress, Dedup.Touched, Dedup.Verdict, EvaluationContext;
    if r.blocked {
      return Outcome(BLOCKED, None, false, 1, None, None, false, None);
    }
    if r.event.None? {
      return Outcome(NO_EVENT, None, false, 1, None, None, false, None);
    }
    var e := r.event.value;
    var moment := if now.Some? then now.value else e.receivedAt;
    var camera := ResolveCamera(ctx, e.channel);
    var suppression := Suppression.ShouldSuppress(e.eventType, e.site, e.device, outages.Known());
    if suppression.suppressed {
      return Outcome(SUPPRESSED, Some(Suppressed), true, 1, None, None, false, camera);
    }
    var seen := dedup.Check(e.dedupKey, moment, None);
    if seen.isDuplicate {
      return Outcome(DUPLICATE, Some(Suppressed), true, seen.totalInWindow, None, None, false, camera);
    }
    var verdict := ai.UnwrapOr(AI_UNAVAILABLE);
    var decision := Rules.EvaluateAll(ctx.rules, EvaluationContext(e, ctx, verdict));
    assert decision == Scored(e, ctx, verdict) by { ScoredIsBest(e, ctx, verdict); }
    if !decision.matched {
      return Outcome(NO_RULE_MATCH, Some(New), true, 1, Some(decision), None, false, camera);
    }
    var policy := Escalation.PolicyFor(SeverityFor(decision.risk.score) == Critical);
    var climb := Escalation.Climb(moment, policy, None, None, {});
    o := Outcome(ALARMED, Some(Alerted), true, 1, Some(decision), Some(climb), Rules.Push in decision.actions, camera);
  }

  lemma ScoredIsBest(e: IngestedEvent, ctx: SiteContext, ai: AiVerdict)
    ensures Scored(e, ctx, ai) == Rules.Best(ctx.rules, EvaluationContext(e, ctx, ai))
  {
  }

  // SECURITY EVENTS IGNORE OUTAGES: what becomes of them is the same whatever is known to be down.
  lemma SecurityEventsIgnoreOutages(
    r: IngestResult, ctx: SiteContext, x: Suppression.Outages, y: Suppression.Outages, window: int,
    entries: Dedup.Entries, ai: AiVerdict, moment: int)
    requires r.event.Some? && r.event.value.eventType in Suppression.NEVER_SUPPRESSED
    ensures Outcomes(r, ctx, x, Sight(window, entries, r, moment), ai, moment)
         == Outcomes(r, ctx, y, Sight(window, entries, r, moment), ai, moment)
    ensures Noted(window, entries, r, x, moment) == Noted(window, entries, r, y, moment)
  {
    hide Scored, FirstSight, Sight;
  }

  // WHEN AN ALARM IS RAISED, exactly: the message is neither blocked nor suppressed, it opens its window, and
  // some rule of the site matches. The alarm then scores as high as any matching rule.
  lemma AlarmExactly(
    r: IngestResult, ctx: SiteContext, outages: Suppression.Outages, window: int, entries: Dedup.Entries, ai: AiVerdict,
    moment: int)
    ensures var o := Outcomes(r, ctx, outages, Sight(window, entries, r, moment), ai, moment);
            && (o.stage == ALARMED <==>
                  && ReachesDedup(r, outages)
                  && Dedup.Opens(window, Dedup.Lookup(entries, r.event.value.dedupKey), moment)
                  && SomeRuleMatches(r.event.value, ctx, ai))
            && (o.stage == ALARMED ==> o.decision.Some? && LoudestMatch(o.decision.value, r.event.value, ctx, ai))
            && (o.push ==> o.stage == ALARMED)
  {
    hide EvaluationContext, Rules.Evaluate, Rules.Best, Dedup.Opens;
    if ReachesDedup(r, outages) {
      var e := r.event.value;
      BestMatches(e, ctx, ai);
    }
  }

  ghost predicate SomeRuleMatches(e: IngestedEvent, ctx: SiteContext, ai: AiVerdict) {
    exists k :: 0 <= k < |ctx.rules| && Rules.Evaluate(ctx.rules[k], EvaluationContext(e, ctx, ai)).matched
  }

  // The decision is that of a matching rule, and no matching rule scores higher.
  ghost predicate LoudestMatch(d: Rules.Decision, e: IngestedEvent, ctx: SiteContext, ai: AiVerdict) {
    && (exists k :: 0 <= k < |ctx.rules| && d == Rules.Evaluate(ctx.rules[k], EvaluationContext(e, ctx, ai)) && d.matched)
    && forall k :: 0 <= k < |ctx.rules| ==>
         var other := Rules.Evaluate(ctx.rules[k], EvaluationContext(e, ctx, ai));
         other.matched ==> other.risk.score <= d.risk.score
  }

  lemma BestMatches(e: IngestedEvent, ctx: SiteContext, ai: AiVerdict)
    ensures Scored(e, ctx, ai).matched <==> SomeRuleMatches(e, ctx, ai)
    ensures Scored(e, ctx, ai).matched ==> LoudestMatch(Scored(e, ctx, ai), e, ctx, ai)
  {
    hide EvaluationContext, Rules.Evaluate;
    if ctx.rules != [] {
      var c := EvaluationContext(e, ctx, ai);
      var k := Rules.BestIsLoudest(ctx.rules, c);
      assert Scored(e, ctx, ai) == Rules.Evaluate(ctx.rules[k], c);
      forall i | 0 <= i < |ctx.rules| && Rules.Evaluate(ctx.rules[i], c).matched
        ensures Scored(e, ctx, ai).matched && Rules.Evaluate(ctx.rules[i], c).risk.score <= Scored(e, ctx, ai).risk.score
      {
        assert !Rules.Louder(Rules.Evaluate(ctx.rules[i], c), Scored(e, ctx, ai));
      }
    }
  }

  // ---- Runs: any messages, outages and clock readings, one fixed window ------------------------------------

  datatype Turn = Turn(r: IngestResult, ctx: SiteContext, outages: Suppression.Outages, ai: AiVerdict, moment: int)

  function OutcomeOf(window: int, entries: Dedup.Entries, t: Turn): Outcome {
    Outcomes(t.r, t.ctx, t.outages, Sight(window, entries, t.r, t.moment), t.ai, t.moment)
  }

  function Next(window: int, entries: Dedup.Entries, t: Turn): Dedup.Entries {
    Noted(window, entries, t.r, t.outages, t.moment)
  }

  function Finally(window: int, entries: Dedup.Entries, turns: seq<Turn>): Dedup.Entries
    decreases |turns|
  {
    if turns == [] then entries else Finally(window, Next(window, entries, turns[0]), turns[1..])
  }

  predicate AlarmsFor(window: int, entries: Dedup.Entries, t: Turn, key: string) {
    t.r.event.Some? && t.r.event.value.dedupKey == key && OutcomeOf(window, entries, t).stage == ALARMED
  }

  // When alarms are raised for the key.
  function AlarmTimes(window: int, entries: Dedup.Entries, turns: seq<Turn>, key: string): seq<int>
    decreases |turns|
  {
    if turns == [] then []
    else
      (if AlarmsFor(window, entries, turns[0], key) then [turns[0].moment] else [])
      + AlarmTimes(window, Next(window, entries, turns[0]), turns[1..], key)
  }

  // The checks the run makes: one for each event that is neither blocked nor suppressed.
  function ChecksMade(turns: seq<Turn>): (ops: seq<Dedup.Op>)
    ensures Dedup.NoPurge(ops)
    decreases |turns|
  {
    if turns == [] then []
    else
      (if ReachesDedup(turns[0].r, turns[0].outages)
       then [Dedup.Check(turns[0].r.event.value.dedupKey, turns[0].moment)] else [])
      + ChecksMade(turns[1..])
  }

  // The window after a run is the window after its checks alone.
  lemma {:induction false} WindowIsOfChecks(window: int, entries: Dedup.Entries, turns: seq<Turn>)
    ensures Finally(window, entries, turns) == Dedup.Run(window, entries, ChecksMade(turns))
    decreases |turns|
  {
    hide ReachesDedup, Dedup.After;
    if turns != [] {
      WindowIsOfChecks(window, Next(window, entries, turns[0]), turns[1..]);
      if ReachesDedup(turns[0].r, turns[0].outages) {
        assert ChecksMade(turns)[1..] == ChecksMade(turns[1..]);
      } else {
        assert ChecksMade(turns) == ChecksMade(turns[1..]);
      }
    }
  }

  // EVERY SIGHTING COUNTS ONCE: the closed windows of a key and the open one hold, between them, exactly
  // the events of that key that were neither blocked nor suppressed.
  lemma SightingsAreConserved(window: int, turns: seq<Turn>, key: string)
    ensures Dedup.Closed(window, map[], ChecksMade(turns), key) + Dedup.OpenCount(Finally(window, map[], turns), key)
         == Dedup.ChecksOf(ChecksMade(turns), key)
  {
    WindowIsOfChecks(window, map[], turns);
    Dedup.SightingsAreConserved(window, map[], ChecksMade(turns), key);
  }

  // An alarm opens the window of its key.
  lemma AlarmOpensWindow(window: int, entries: Dedup.Entries, t: Turn, key: string)
    requires AlarmsFor(window, entries, t, key)
    ensures ReachesDedup(t.r, t.outages) && Dedup.Opens(window, Dedup.Lookup(entries, key), t.moment)
    ensures key in Next(window, entries, t) && Next(window, entries, t)[key].firstSeen == t.moment
  {
    hide Scored, EvaluationContext;
  }

  lemma NextKeepsOrOpens(window: int, entries: Dedup.Entries, t: Turn, key: string)
    requires key in entries && window >= 0
    ensures key in Next(window, entries, t)
    ensures Next(window, entries, t)[key].firstSeen == entries[key].firstSeen
         || Next(window, entries, t)[key].firstSeen - entries[key].firstSeen >= window
  {
  }

  // ONE ALARM A WINDOW: successive alarms for one key are at least a window apart, whatever order the
  // timestamps arrive in and whatever was suppressed or blocked in between.
  lemma {:induction false} AlarmsAreApart(window: int, entries: Dedup.Entries, turns: seq<Turn>, key: string)
    requires window >= 0
    ensures var times := AlarmTimes(window, entries, turns, key);
            && Dedup.Apart(window, times)
            && (key in entries && times != [] ==> times[0] - entries[key].firstSeen >= window)
    decreases |turns|
  {
    hide Next, AlarmsFor;
    if turns != [] {
      var t, next := turns[0], Next(window, entries, turns[0]);
      AlarmsAreApart(window, next, turns[1..], key);
      if key in entries { NextKeepsOrOpens(window, entries, t, key); }
      if AlarmsFor(window, entries, t, key) {
        AlarmOpensWindow(window, entries, t, key);
        Dedup.ApartCons(window, t.moment, AlarmTimes(window, next, turns[1..], key));
      } else {
        assert AlarmTimes(window, entries, turns, key) == AlarmTimes(window, next, turns[1..], key);
      }
    }
  }
}
