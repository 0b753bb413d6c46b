// What raises an alarm, from the mail's event and the site's rows to the climb that follows.
module AlarmMeaning {
  import opened Options
  import opened Risk
  import opened AlarmFlow
  import opened RuleMeaning
  import Dedup
  import Escalation
  import Rules
  import Schedules
  import Suppression

  // ---- What the rules are asked ------------------------------------------------------------------

  // The camera the channel stands for, by name; none for an unknown channel.
  predicate IsCameraOf(name: string, e: IngestedEvent, ctx: SiteContext) {
    if e.channel.Some? && e.channel.value in ctx.cameras then name == ctx.cameras[e.channel.value] else name == ""
  }

  // The rules are asked about the event at the instant it was received, in the zones of its own camera only.
  ghost predicate IsQuestion(c: Rules.Context, e: IngestedEvent, ctx: SiteContext, ai: AiVerdict) {
    && c.eventType == e.eventType && IsCameraOf(c.cameraId, e, ctx)
    && (forall tz :: c.localTime(tz) == ctx.localTime(e.receivedAt, tz)) && c.siteTimezone == ctx.timezone
    && (if c.cameraId in ctx.zones then c.zones == ctx.zones[c.cameraId] else c.zones == [])
    && c.boxes == ai.boxes && c.aiConfidence == ai.confidence && c.aiAvailable == ai.available
    && (c.recentTamper <==> c.cameraId != "" && c.cameraId in ctx.recentTamper)
    && !c.repeated && c.deviceSilent == ctx.deviceSilent
    && (c.perimeterEvent <==> e.eventType == "line_crossing" || e.eventType == "zone_intrusion")
  }

  lemma QuestionAsked(e: IngestedEvent, ctx: SiteContext, ai: AiVerdict)
    ensures IsQuestion(EvaluationContext(e, ctx, ai), e, ctx, ai)
  {
  }

  // ---- What becomes of a message -------------------------------------------------------------------

  // A bigger outage explains the event, and it is none that may be an incident itself.
  predicate Explained(e: IngestedEvent, outages: Suppression.Outages) {
    && e.eventType !in {"person_detected", "vehicle_detected", "line_crossing", "zone_intrusion", "video_tampering",
                        "device_silent", "site_offline"}
    && (e.site in outages.sites
        || (e.device in outages.devices
            && e.eventType !in {"device_offline", "storage_not_exist", "storage_failure", "storage_low_space"}))
  }

  lemma ExplainedIsSuppressed(e: IngestedEvent, outages: Suppression.Outages)
    ensures IsSuppressed(e, outages) <==> Explained(e, outages)
  {
    Suppression.SuppressedExactly(e.eventType, e.site, e.device, outages);
  }

  // The window of the event's key is still open.
  predicate WindowOpen(window: int, entries: Dedup.Entries, e: IngestedEvent, moment: int) {
    e.dedupKey in entries && moment - entries[e.dedupKey].firstSeen < window
  }

  ghost predicate RuleFires(rule: Rules.Rule, c: Rules.Context) {
    Applies(rule, c) && PointsOf(rule, c) >= LeastScore(rule.minSeverity)
  }

  ghost predicate SomeFires(ctx: SiteContext, c: Rules.Context) {
    exists k :: 0 <= k < |ctx.rules| && RuleFires(ctx.rules[k], c)
  }

  // How far the message gets.
  ghost predicate EndsAs(stage: Stage, r: IngestResult, ctx: SiteContext, outages: Suppression.Outages, window: int,
                         entries: Dedup.Entries, c: Rules.Context, moment: int)
  {
    stage == if r.blocked then BLOCKED
             else if r.event.None? then NO_EVENT
             else if Explained(r.event.value, outages) then SUPPRESSED
             else if WindowOpen(window, entries, r.event.value, moment) then DUPLICATE
             else if SomeFires(ctx, c) then ALARMED
             else NO_RULE_MATCH
  }

  // The alarm carries the points of a rule that fires, none that fires has more, and its climb begins now: along
  // the critical policy from 85 points on.
  ghost predicate CarriesLoudest(o: Outcome, ctx: SiteContext, c: Rules.Context, moment: int) {
    && o.decision.Some? && o.status == Some(Alerted)
    && (exists k :: 0 <= k < |ctx.rules| && RuleFires(ctx.rules[k], c)
                    && o.decision.value.risk.score == PointsOf(ctx.rules[k], c)
                    && (o.push <==> Rules.Push in ctx.rules[k].actions))
    && (forall k :: 0 <= k < |ctx.rules| && RuleFires(ctx.rules[k], c) ==>
          PointsOf(ctx.rules[k], c) <= o.decision.value.risk.score)
    && o.climb == Some(Escalation.Climb(moment, Escalation.PolicyFor(o.decision.value.risk.score >= 85), None, None, {}))
  }

  lemma FiringIsMatching(ctx: SiteContext, c: Rules.Context)
    requires forall k :: 0 <= k < |ctx.rules| ==> Schedules.Valid(ctx.rules[k].schedule)
    ensures forall k :: 0 <= k < |ctx.rules| ==>
              var d := Rules.Evaluate(ctx.rules[k], c);
              && (d.matched <==> RuleFires(ctx.rules[k], c))
              && (d.matched ==>
                    && d.risk.score == PointsOf(ctx.rules[k], c)
                    && d.actions == ctx.rules[k].actions + (if PointsOf(ctx.rules[k], c) >= 85 then {Rules.Escalate} else {}))
  {
    hide Rules.Evaluate, Applies, PointsOf;
    forall k | 0 <= k < |ctx.rules|
      ensures var d := Rules.Evaluate(ctx.rules[k], c);
              && (d.matched <==> RuleFires(ctx.rules[k], c))
              && (d.matched ==>
                    && d.risk.score == PointsOf(ctx.rules[k], c)
                    && d.actions == ctx.rules[k].actions + (if PointsOf(ctx.rules[k], c) >= 85 then {Rules.Escalate} else {}))
    {
      RuleMatchesWhen(ctx.rules[k], c);
    }
  }

  lemma LoudestFires(e: IngestedEvent, ctx: SiteContext, ai: AiVerdict, c: Rules.Context, moment: int,
                     camera: Option<string>)
    requires forall k :: 0 <= k < |ctx.rules| ==> Schedules.Valid(ctx.rules[k].schedule)
    requires c == EvaluationContext(e, ctx, ai)
    ensures var o := FirstSight(e, AlarmFlow.Scored(e, ctx, ai), moment, camera);
            && o.stage == (if SomeFires(ctx, c) then ALARMED else NO_RULE_MATCH)
            && (o.stage == ALARMED ==> CarriesLoudest(o, ctx, c, moment))
  {
    hide Rules.Evaluate, RuleFires, PointsOf, EvaluationContext, AlarmFlow.Scored, Escalation.PolicyFor;
    FiringIsMatching(ctx, c);
    BestMatches(e, ctx, ai);
    CriticalFrom85(AlarmFlow.Scored(e, ctx, ai).risk.score);
  }

  lemma CriticalFrom85(score: int)
    ensures SeverityFor(score) == Critical <==> score >= 85
  {
  }

  // WHAT RAISES AN ALARM. A message ends as blocked, without an event, explained by an outage, inside an open window,
  // as an alarm or unmatched, in this order; everything with an event that is not blocked is stored. It is an
  // alarm when some rule fires on what is asked about its event.
  lemma MessageMeans(r: IngestResult, ctx: SiteContext, outages: Suppression.Outages, window: int, entries: Dedup.Entries,
                     ai: AiVerdict, moment: int) returns (c: Rules.Context)
    requires forall k :: 0 <= k < |ctx.rules| ==> Schedules.Valid(ctx.rules[k].schedule)
    ensures r.event.Some? ==> IsQuestion(c, r.event.value, ctx, ai)
    ensures var o := Outcomes(r, ctx, outages, Sight(window, entries, r, moment), ai, moment);
            && EndsAs(o.stage, r, ctx, outages, window, entries, c, moment)
            && (o.persistEvent <==> !r.blocked && r.event.Some?)
            && (o.stage == ALARMED ==> CarriesLoudest(o, ctx, c, moment))
            && (o.stage in {SUPPRESSED, DUPLICATE} ==> o.status == Some(Suppressed))
            && (o.stage == NO_RULE_MATCH ==> o.status == Some(New))
            && (o.stage == DUPLICATE ==> o.occurrences == entries[r.event.value.dedupKey].count + 1)
            && (o.stage != ALARMED ==> !o.push && o.climb == None)
            && (o.stage != DUPLICATE ==> o.occurrences == 1)
  {
    hide SomeFires, CarriesLoudest, Explained, IsSuppressed, EvaluationContext, FirstSight, IsQuestion;
    if r.event.Some? {
      var e := r.event.value;
      c := EvaluationContext(e, ctx, ai);
      QuestionAsked(e, ctx, ai);
      ExplainedIsSuppressed(e, outages);
      LoudestFires(e, ctx, ai, c, moment, ResolveCamera(ctx, e.channel));
      FirstSightKeeps(e, AlarmFlow.Scored(e, ctx, ai), moment, ResolveCamera(ctx, e.channel));
    } else {
      c := Rules.Context("", tz => 0, "", "", [], [], None, false, false, false, false, false);
    }
  }

  lemma FirstSightKeeps(e: IngestedEvent, d: Rules.Decision, moment: int, camera: Option<string>)
    ensures var o := FirstSight(e, d, moment, camera);
            && o.persistEvent && o.occurrences == 1 && o.stage in {ALARMED, NO_RULE_MATCH}
            && (o.stage == NO_RULE_MATCH ==> o.status == Some(New) && !o.push && o.climb == None)
  {
  }
}
