// When a rule matches and what it scores, said of the event, the frame and the rule alone.
module RuleMeaning {
  import opened Clock
  import opened Options
  import opened Risk
  import opened Rules
  import opened Schedules
  import opened Zones

  // ---- Time ------------------------------------------------------------------------------------

  // The window that opens on this day is open.
  predicate OpenSince(s: Schedule, day: int, t: int) {
    && day % 7 in s.days
    && day * DAY + s.start <= t < day * DAY + s.end + if s.end > s.start then 0 else DAY
  }

  // Inside a window of a listed day. Equal bounds are all week or nothing.
  ghost predicate Armed(s: Schedule, t: int) {
    if s.start == s.end then s.days == {0, 1, 2, 3, 4, 5, 6} else exists day :: OpenSince(s, day, t)
  }

  lemma ArmedIsActive(s: Schedule, t: int)
    requires Schedules.Valid(s)
    ensures IsActive(s, t) <==> Armed(s, t)
  {
    hide IsActive;
    if s.start == s.end {
      EqualBounds(s, t);
    } else {
      ActiveIffInWindow(s, t);
      forall day: int
        ensures InWindowOf(s, day, t) <==> OpenSince(s, day, t)
      {
      }
    }
  }

  // Sunday, or before seven, or from nineteen o'clock.
  predicate AfterHours(t: int) { (t / DAY) % 7 == 6 || t % DAY < 7 * HOUR || t % DAY >= 19 * HOUR }

  // ---- Place -----------------------------------------------------------------------------------

  // The middle of the bottom edge lies in the zone.
  predicate StandsIn(box: Box, z: Zone) { Inside(Point((box.x1 + box.x2) / 2.0, box.y2), z.points) }

  ghost predicate Ignored(box: Box, zones: seq<Zone>) {
    exists z :: z in zones && z.kind == ZoneType.Ignore && StandsIn(box, z)
  }

  // There are detections, and each one stands in an IGNORE zone.
  ghost predicate Silenced(ctx: Context) {
    ctx.boxes != [] && forall i :: 0 <= i < |ctx.boxes| ==> Ignored(ctx.boxes[i], ctx.zones)
  }

  // Some detection outside the IGNORE zones stands in the zone.
  ghost predicate Touched(ctx: Context, z: Zone) {
    z in ctx.zones && exists i :: 0 <= i < |ctx.boxes| && !Ignored(ctx.boxes[i], ctx.zones) && StandsIn(ctx.boxes[i], z)
  }

  ghost predicate InItsZones(rule: Rule, ctx: Context) {
    rule.zoneNames == {} || exists z :: Touched(ctx, z) && z.name in rule.zoneNames
  }

  ghost predicate InRestrictedZone(ctx: Context) { exists z :: Touched(ctx, z) && z.kind == ZoneType.Restricted }

  lemma IgnoredIsMatch(box: Box, zones: seq<Zone>)
    ensures IsIgnored(MatchZones(box, zones)) <==> Ignored(box, zones)
    ensures forall z :: z in MatchZones(box, zones) <==> z in zones && StandsIn(box, z)
  {
    hide Inside, MatchZones;
    FeetDecide(box, box, zones);
    var m := MatchZones(box, zones);
    assert forall k :: 0 <= k < |m| ==> m[k] in m;
  }

  lemma SilencedIsIgnored(ctx: Context)
    ensures IsIgnored(MatchUnion(ctx.boxes, ctx.zones)) <==> Silenced(ctx)
  {
    hide IsIgnored, MatchUnion, MatchZones, Ignored;
    IgnoredOnlyTogether(ctx.boxes, ctx.zones);
    forall i | 0 <= i < |ctx.boxes|
      ensures IsIgnored(MatchZones(ctx.boxes[i], ctx.zones)) <==> Ignored(ctx.boxes[i], ctx.zones)
    {
      IgnoredIsMatch(ctx.boxes[i], ctx.zones);
    }
  }

  lemma MatchedIsTouched(ctx: Context)
    requires !Silenced(ctx)
    ensures forall z :: z in MatchUnion(ctx.boxes, ctx.zones) <==> Touched(ctx, z)
  {
    hide IsIgnored, MatchUnion, MatchZones, Ignored, StandsIn;
    SilencedIsIgnored(ctx);
    forall i | 0 <= i < |ctx.boxes|
      ensures IsIgnored(MatchZones(ctx.boxes[i], ctx.zones)) <==> Ignored(ctx.boxes[i], ctx.zones)
      ensures forall z :: z in MatchZones(ctx.boxes[i], ctx.zones) <==> z in ctx.zones && StandsIn(ctx.boxes[i], z)
    {
      IgnoredIsMatch(ctx.boxes[i], ctx.zones);
    }
    IgnoredOnlyTogether(ctx.boxes, ctx.zones);
    assert IsMatchOf(MatchUnion(ctx.boxes, ctx.zones), ctx.boxes, ctx.zones);
  }

  lemma ZonesOfMatch(rule: Rule, ctx: Context)
    requires !Silenced(ctx)
    ensures OutsideZones(rule, MatchUnion(ctx.boxes, ctx.zones)) <==> !InItsZones(rule, ctx)
    ensures InRestricted(MatchUnion(ctx.boxes, ctx.zones)) <==> InRestrictedZone(ctx)
  {
    hide IsIgnored, MatchUnion, Touched, Silenced, OutsideZones, InItsZones, InRestrictedZone;
    var m := MatchUnion(ctx.boxes, ctx.zones);
    MatchedIsTouched(ctx);
    SilencedIsIgnored(ctx);
    NamesTouched(rule, ctx, m);
    KindTouched(ctx, m);
  }

  lemma NamesTouched(rule: Rule, ctx: Context, m: ZoneMatch)
    requires forall z :: z in m <==> Touched(ctx, z)
    ensures OutsideZones(rule, m) <==> !InItsZones(rule, ctx)
  {
    hide Touched;
    if !OutsideZones(rule, m) && rule.zoneNames != {} {
      var name :| name in rule.zoneNames * Names(m);
    }
    forall z | z in m && z.name in rule.zoneNames
      ensures !OutsideZones(rule, m)
    {
      assert z.name in rule.zoneNames * Names(m);
    }
  }

  lemma KindTouched(ctx: Context, m: ZoneMatch)
    requires forall z :: z in m <==> Touched(ctx, z)
    ensures HasKind(m, ZoneType.Restricted) <==> InRestrictedZone(ctx)
  {
    hide Touched;
    assert forall k :: 0 <= k < |m| ==> m[k] in m;
  }

  // ---- Points ----------------------------------------------------------------------------------

  // Which fact makes which factor count.
  ghost predicate Counts(ctx: Context, f: RiskFactor) {
    match f
    case PersonDetected => ctx.eventType in {"person_detected", "line_crossing", "zone_intrusion"}
    case VehicleDetected => ctx.eventType == "vehicle_detected"
    case OutsideBusinessHours => AfterHours(ctx.localTime(ctx.siteTimezone))
    case RestrictedZone => InRestrictedZone(ctx) && ctx.eventType != "vehicle_detected"
    case VehicleInRestrictedZone => InRestrictedZone(ctx) && ctx.eventType == "vehicle_detected"
    case PerimeterRuleTriggered => ctx.perimeterEvent || ctx.eventType in {"line_crossing", "zone_intrusion"}
    case RepeatedEntry => ctx.repeated
    case CameraTamperNearEvent => ctx.recentTamper
    case DeviceSilent => ctx.deviceSilent
    case AiUnavailable => !ctx.aiAvailable
    case LowAiConfidence => ctx.aiAvailable && ctx.aiConfidence.Some? && ctx.aiConfidence.value < 0.6
  }

  function Usual(f: RiskFactor): int {
    match f
    case PersonDetected => 10
    case VehicleDetected => 5
    case OutsideBusinessHours => 25
    case RestrictedZone => 30
    case PerimeterRuleTriggered => 15
    case RepeatedEntry => 10
    case CameraTamperNearEvent => 20
    case VehicleInRestrictedZone => 20
    case LowAiConfidence => -15
    case AiUnavailable => 0
    case DeviceSilent => 25
  }

  // The rule's own weight, or the usual one.
  function Worth(rule: Rule, f: RiskFactor): int { if f in rule.weights then rule.weights[f] else Usual(f) }

  ghost function Adds(rule: Rule, ctx: Context, f: RiskFactor): int { if Counts(ctx, f) then Worth(rule, f) else 0 }

  // The sum over all factors, between 0 and 100.
  ghost function PointsOf(rule: Rule, ctx: Context): int {
    var sum := Adds(rule, ctx, PersonDetected) + Adds(rule, ctx, VehicleDetected)
               + Adds(rule, ctx, OutsideBusinessHours) + Adds(rule, ctx, RestrictedZone)
               + Adds(rule, ctx, PerimeterRuleTriggered) + Adds(rule, ctx, RepeatedEntry)
               + Adds(rule, ctx, CameraTamperNearEvent) + Adds(rule, ctx, VehicleInRestrictedZone)
               + Adds(rule, ctx, LowAiConfidence) + Adds(rule, ctx, AiUnavailable) + Adds(rule, ctx, DeviceSilent);
    if sum < 0 then 0 else if sum > 100 then 100 else sum
  }

  // The lowest score of a severity.
  function LeastScore(s: Severity): int {
    match s case Info => 0 case Low => 30 case Medium => 50 case High => 70 case Critical => 85
  }

  lemma CountingFactors(ctx: Context, m: ZoneMatch)
    requires InRestricted(m) <==> InRestrictedZone(ctx)
    ensures forall f :: f in Factors(ctx, m) <==> Counts(ctx, f)
  {
    hide InRestricted, Sighting, Circumstances, Counts, When;
    forall f: RiskFactor
      ensures f in Factors(ctx, m) <==> Counts(ctx, f)
    {
      SeenThen(ctx, f);
      StoodThen(ctx, m, f);
      KnownThen(ctx, f);
      ThreeGroups(f);
      AmongThree(Sighting(ctx), When(InRestricted(m), RestrictedFactor(ctx)), Circumstances(ctx), f);
    }
  }

  lemma ThreeGroups(f: RiskFactor)
    ensures || f in {PersonDetected, VehicleDetected, PerimeterRuleTriggered, OutsideBusinessHours}
            || f in {RestrictedZone, VehicleInRestrictedZone}
            || f in {RepeatedEntry, CameraTamperNearEvent, RiskFactor.DeviceSilent, AiUnavailable, LowAiConfidence}
  {
  }

  lemma AmongThree(a: seq<RiskFactor>, b: seq<RiskFactor>, d: seq<RiskFactor>, f: RiskFactor)
    ensures f in a + b + d <==> f in a || f in b || f in d
  {
  }

  lemma StoodThen(ctx: Context, m: ZoneMatch, f: RiskFactor)
    requires InRestricted(m) <==> InRestrictedZone(ctx)
    ensures f in When(InRestricted(m), RestrictedFactor(ctx)) <==>
              f in {RestrictedZone, VehicleInRestrictedZone} && Counts(ctx, f)
  {
    hide InRestricted, InRestrictedZone;
  }

  lemma SeenThen(ctx: Context, f: RiskFactor)
    ensures f in Sighting(ctx) <==>
              && f in {PersonDetected, VehicleDetected, PerimeterRuleTriggered, OutsideBusinessHours} && Counts(ctx, f)
  {
    hide InRestrictedZone;
  }

  lemma KnownThen(ctx: Context, f: RiskFactor)
    ensures f in Circumstances(ctx) <==>
              && f in {RepeatedEntry, CameraTamperNearEvent, RiskFactor.DeviceSilent, AiUnavailable, LowAiConfidence}
              && Counts(ctx, f)
  {
    hide InRestrictedZone;
  }

  lemma PointsAreScore(rule: Rule, ctx: Context, factors: seq<RiskFactor>)
    requires forall f :: f in factors <==> Counts(ctx, f)
    ensures Score(rule.weights, factors).score == PointsOf(rule, ctx)
  {
    hide Counts, Score, Points, Adds;
    ScoreIsClampedSum(rule.weights, factors);
    forall f: RiskFactor
      ensures Points(rule.weights, Fired(factors), f) == Adds(rule, ctx, f)
    {
      EachPoint(rule, ctx, factors, f);
    }
  }

  lemma EachPoint(rule: Rule, ctx: Context, factors: seq<RiskFactor>, f: RiskFactor)
    requires f in factors <==> Counts(ctx, f)
    ensures Points(rule.weights, Fired(factors), f) == Adds(rule, ctx, f)
  {
    hide Counts;
    WorthIsWeight(rule, f);
  }

  lemma WorthIsWeight(rule: Rule, f: RiskFactor)
    ensures Weight(rule.weights, f) == Worth(rule, f)
  {
  }

  // ---- What a rule decides -------------------------------------------------------------------------

  // The AI is sure enough or says nothing; while it is away the rule takes the vendor's word.
  predicate AiConsents(rule: Rule, ctx: Context) {
    if !ctx.aiAvailable then rule.ifAiUnavailable == AlertOnVendorEvent
    else ctx.aiConfidence.None? || ctx.aiConfidence.value >= rule.minAiConfidence
  }

  // Everything a match needs but the AI and the score.
  ghost predicate Concerns(rule: Rule, ctx: Context) {
    && rule.enabled && ctx.eventType in rule.eventTypes
    && (rule.cameraIds == {} || ctx.cameraId in rule.cameraIds)
    && Armed(rule.schedule, ctx.localTime(rule.timezone))
    && !Silenced(ctx) && InItsZones(rule, ctx)
  }

  // Everything but the score.
  ghost predicate Applies(rule: Rule, ctx: Context) { Concerns(rule, ctx) && AiConsents(rule, ctx) }

  // The rule only queues the event while the AI is away.
  ghost predicate Waits(rule: Rule, ctx: Context) {
    Concerns(rule, ctx) && !ctx.aiAvailable && rule.ifAiUnavailable == QueueOnly
  }

  // Each factor that counts is a reason once, with its points.
  ghost predicate Explains(reasons: seq<RiskReason>, rule: Rule, ctx: Context) {
    && (forall f :: Counts(ctx, f) <==> exists i :: 0 <= i < |reasons| && reasons[i].factor == f)
    && (forall i, j :: 0 <= i < j < |reasons| ==> reasons[i].factor != reasons[j].factor)
    && (forall i :: 0 <= i < |reasons| ==> reasons[i].points == Worth(rule, reasons[i].factor))
  }

  lemma ReasonsExplain(rule: Rule, ctx: Context, factors: seq<RiskFactor>)
    requires forall f :: f in factors <==> Counts(ctx, f)
    ensures Explains(Score(rule.weights, factors).reasons, rule, ctx)
  {
    hide Counts, Worth, Weight;
    forall f: RiskFactor ensures Weight(rule.weights, f) == Worth(rule, f) { WorthIsWeight(rule, f); }
    var seen, reasons := Distinct(factors), Score(rule.weights, factors).reasons;
    forall f: RiskFactor
      ensures f in seen <==> exists i :: 0 <= i < |reasons| && reasons[i].factor == f
    {
      if f in seen {
        var i :| 0 <= i < |seen| && seen[i] == f;
        assert reasons[i].factor == f;
      }
    }
  }

  // WHEN A RULE MATCHES, exactly, and what it then says. It is on, lists the event and the camera and is armed; the
  // frame is not silenced and touches its zones; the AI consents; and the points reach its severity. A match
  // carries these points and their reasons, and escalates from 85 on. A rule that applies but scores too low, or
  // waits for the AI, is logged; any other says nothing.
  lemma RuleMatchesWhen(rule: Rule, ctx: Context)
    requires Schedules.Valid(rule.schedule)
    ensures var d := Evaluate(rule, ctx);
            && (d.matched <==> Applies(rule, ctx) && PointsOf(rule, ctx) >= LeastScore(rule.minSeverity))
            && (d.matched ==>
                  && d.ruleName == Some(rule.name) && d.risk.score == PointsOf(rule, ctx)
                  && d.actions == rule.actions + (if PointsOf(rule, ctx) >= 85 then {Escalate} else {})
                  && Explains(d.risk.reasons, rule, ctx)
                  && forall z :: z in d.zoneMatch <==> Touched(ctx, z))
            && (!d.matched ==> d.actions == if Applies(rule, ctx) || Waits(rule, ctx) then {LogOnly} else {})
            && (!d.matched ==> d.ruleName == if Applies(rule, ctx) || Waits(rule, ctx) then Some(rule.name) else None)
            && (!d.matched ==> d.risk.score == if Applies(rule, ctx) then PointsOf(rule, ctx) else 0)
  {
    hide Evaluate, Factors, MatchUnion, IsIgnored, OutsideZones, IsActive, Score, Armed, InItsZones, Silenced, Touched;
    hide PointsOf, Explains, Disqualified, Qualifies;
    var m := MatchUnion(ctx.boxes, ctx.zones);
    Decides(rule, ctx, m);
    QualifiesWhen(rule, ctx, m);
    if !Silenced(ctx) {
      MatchedIsTouched(ctx);
      ZonesOfMatch(rule, ctx);
      CountingFactors(ctx, m);
      PointsAreScore(rule, ctx, Factors(ctx, m));
      ReasonsExplain(rule, ctx, Factors(ctx, m));
    }
  }

  predicate Qualifies(rule: Rule, ctx: Context, m: ZoneMatch) {
    !Disqualified(rule, ctx) && !IsIgnored(m) && !OutsideZones(rule, m)
  }

  lemma QualifiesWhen(rule: Rule, ctx: Context, m: ZoneMatch)
    requires Schedules.Valid(rule.schedule) && m == MatchUnion(ctx.boxes, ctx.zones)
    ensures Qualifies(rule, ctx, m) <==> Concerns(rule, ctx)
    ensures Concerns(rule, ctx) ==> !Silenced(ctx)
  {
    hide MatchUnion, IsIgnored, OutsideZones, IsActive, Armed, InItsZones, Silenced;
    ArmedIsActive(rule.schedule, ctx.localTime(rule.timezone));
    SilencedIsIgnored(ctx);
    if !Silenced(ctx) { ZonesOfMatch(rule, ctx); }
  }

  lemma Decides(rule: Rule, ctx: Context, m: ZoneMatch)
    requires m == MatchUnion(ctx.boxes, ctx.zones)
    ensures var d, risk := Evaluate(rule, ctx), Score(rule.weights, Factors(ctx, m));
            if Qualifies(rule, ctx, m) && AiConsents(rule, ctx) then
              && d.risk == risk && d.zoneMatch == m && d.ruleName == Some(rule.name)
              && (d.matched <==> risk.score >= LeastScore(rule.minSeverity))
              && d.actions == if d.matched then rule.actions + (if risk.score >= 85 then {Escalate} else {}) else {LogOnly}
            else
              var waits := Qualifies(rule, ctx, m) && !ctx.aiAvailable && rule.ifAiUnavailable == QueueOnly;
              && !d.matched && d.actions == (if waits then {LogOnly} else {}) && d.risk.score == 0
              && d.ruleName == (if waits then Some(rule.name) else None)
  {
    hide Factors, MatchUnion, IsIgnored, OutsideZones, Disqualified, Score;
    EmptyScore(map[]);
    EmptyScore(rule.weights);
  }
}
