// Rule evaluation: event + context -> decision, and the loudest decision over a site's rules.
module Rules {
  import opened Options
  import opened Risk
  import opened Schedules
  import opened Zones

  datatype Action = Push | Snapshot | Escalate | LogOnly

  datatype AiFallback = AlertOnVendorEvent | QueueOnly | Drop

  datatype Rule = Rule(
    name: string,
    eventTypes: set<string>,
    schedule: Schedule,
    timezone: string,
    cameraIds: set<string>,      // empty: every camera
    zoneNames: set<string>,      // empty: the whole frame
    minAiConfidence: real,
    actions: set<Action>,
    ifAiUnavailable: AiFallback,
    minSeverity: Severity,
    enabled: bool,
    weights: Weights)

  // localTime is the event's instant on the wall clock of a timezone.
  datatype Context = Context(
    eventType: string,
    localTime: string -> int,
    siteTimezone: string,
    cameraId: string,
    zones: seq<Zone>,
    boxes: seq<Box>,
    aiConfidence: Option<real>,
    aiAvailable: bool,
    recentTamper: bool,
    repeated: bool,
    deviceSilent: bool,
    perimeterEvent: bool)

  datatype Decision = Decision(
    matched: bool, ruleName: Option<string>, actions: set<Action>, risk: RiskScore, zoneMatch: ZoneMatch)

  function NoMatch(m: ZoneMatch): Decision {
    Decision(false, None, {}, Score(map[], []), m)
  }

  function When(b: bool, f: RiskFactor): seq<RiskFactor> {
    if b then [f] else []
  }

  predicate PersonEvent(ctx: Context) {
    ctx.eventType in {"person_detected", "line_crossing", "zone_intrusion"}
  }

  predicate VehicleEvent(ctx: Context) {
    ctx.eventType == "vehicle_detected"
  }

  predicate PerimeterEvent(ctx: Context) {
    ctx.perimeterEvent || ctx.eventType in {"line_crossing", "zone_intrusion"}
  }

  predicate OutsideHours(ctx: Context) {
    IsOutsideBusinessHours(ctx.localTime(ctx.siteTimezone))
  }

  predicate UnsureAi(ctx: Context) {
    ctx.aiAvailable && ctx.aiConfidence.Some? && ctx.aiConfidence.value < 0.6
  }

  function RestrictedFactor(ctx: Context): RiskFactor {
    if VehicleEvent(ctx) then VehicleInRestrictedZone else RestrictedZone
  }

  // What was seen, and when.
  function Sighting(ctx: Context): seq<RiskFactor> {
    When(PersonEvent(ctx), PersonDetected)
    + When(VehicleEvent(ctx), VehicleDetected)
    + When(PerimeterEvent(ctx), PerimeterRuleTriggered)
    + When(OutsideHours(ctx), OutsideBusinessHours)
  }

  // What else is known at the time.
  function Circumstances(ctx: Context): seq<RiskFactor> {
    When(ctx.repeated, RepeatedEntry)
    + When(ctx.recentTamper, CameraTamperNearEvent)
    + When(ctx.deviceSilent, DeviceSilent)
    + if !ctx.aiAvailable then [AiUnavailable] else When(UnsureAi(ctx), LowAiConfidence)
  }

  function Factors(ctx: Context, m: ZoneMatch): seq<RiskFactor> {
    Sighting(ctx) + When(InRestricted(m), RestrictedFactor(ctx)) + Circumstances(ctx)
  }

  method AppendIf(factors: seq<RiskFactor>, fires: bool, f: RiskFactor) returns (r: seq<RiskFactor>)
    ensures r == factors + When(fires, f)
  {
    r := factors;
    if fires {
      r := r + [f];
    }
  }

  method CollectFactors(ctx: Context, m: ZoneMatch) returns (factors: seq<RiskFactor>)
    ensures factors == Factors(ctx, m)
  {
    hide PersonEvent, VehicleEvent, PerimeterEvent, OutsideHours, InRestricted, RestrictedFactor, When, Circumstances;
    factors := AppendIf([], PersonEvent(ctx), PersonDetected);
    factors := AppendIf(factors, VehicleEvent(ctx), VehicleDetected);
    factors := AppendIf(factors, PerimeterEvent(ctx), PerimeterRuleTriggered);
    factors := AppendIf(factors, OutsideHours(ctx), OutsideBusinessHours);
    assert factors == Sighting(ctx);
    factors := AppendIf(factors, InRestricted(m), RestrictedFactor(ctx));
    var rest := CollectCircumstances(ctx);
    factors := factors + rest;
  }

  method CollectCircumstances(ctx: Context) returns (rest: seq<RiskFactor>)
    ensures rest == Circumstances(ctx)
  {
    hide When, UnsureAi;
    rest := AppendIf([], ctx.repeated, RepeatedEntry);
    rest := AppendIf(rest, ctx.recentTamper, CameraTamperNearEvent);
    rest := AppendIf(rest, ctx.deviceSilent, DeviceSilent);
    if !ctx.aiAvailable {
      rest := rest + [AiUnavailable];
    } else {
      rest := AppendIf(rest, UnsureAi(ctx), LowAiConfidence);
    }
  }

  // The rule does not even look at the detections.
  predicate Disqualified(rule: Rule, ctx: Context) {
    || !rule.enabled
    || ctx.eventType !in rule.eventTypes
    || (rule.cameraIds != {} && ctx.cameraId !in rule.cameraIds)
    || !IsActive(rule.schedule, ctx.localTime(rule.timezone))
  }

  predicate OutsideZones(rule: Rule, m: ZoneMatch) {
    rule.zoneNames != {} && rule.zoneNames * Names(m) == {}
  }

  predicate BelowConfidence(rule: Rule, ctx: Context) {
    ctx.aiAvailable && ctx.aiConfidence.Some? && ctx.aiConfidence.value < rule.minAiConfidence
  }

  function Evaluate(rule: Rule, ctx: Context): Decision {
    if Disqualified(rule, ctx) then NoMatch([])
    else
      var m := MatchUnion(ctx.boxes, ctx.zones);
      if IsIgnored(m) || OutsideZones(rule, m) then NoMatch(m)
      else if !ctx.aiAvailable && rule.ifAiUnavailable.Drop? then NoMatch(m)
      else if !ctx.aiAvailable && rule.ifAiUnavailable.QueueOnly? then
        Decision(false, Some(rule.name), {LogOnly}, Score(rule.weights, []), m)
      else if BelowConfidence(rule, ctx) then NoMatch(m)
      else Scored(rule, m, Score(rule.weights, Factors(ctx, m)))
  }

  function Scored(rule: Rule, m: ZoneMatch, risk: RiskScore): Decision {
    var severity := SeverityFor(risk.score);
    if Below(severity, rule.minSeverity) then
      Decision(false, Some(rule.name), {LogOnly}, risk, m)
    else
      Decision(true, Some(rule.name), rule.actions + (if severity == Critical then {Escalate} else {}), risk, m)
  }

  // ---- The loudest decision ------------------------------------------------------------------------

  // (matched, score), compared as Python compares tuples.
  predicate Louder(a: Decision, b: Decision) {
    (a.matched && !b.matched) || (a.matched == b.matched && a.risk.score > b.risk.score)
  }

  predicate SamePair(a: Decision, b: Decision) {
    a.matched == b.matched && a.risk.score == b.risk.score
  }

  function BestOf(rules: seq<Rule>, ctx: Context): Decision
    requires rules != []
  {
    var last := Evaluate(rules[|rules| - 1], ctx);
    if |rules| == 1 then last
    else
      var best := BestOf(rules[..|rules| - 1], ctx);
      if Louder(last, best) then last else best
  }

  function Best(rules: seq<Rule>, ctx: Context): Decision {
    if rules == [] then NoMatch([]) else BestOf(rules, ctx)
  }

  method EvaluateAll(rules: seq<Rule>, ctx: Context) returns (d: Decision)
    ensures d == Best(rules, ctx)
  {
    var best: Option<Decision> := None;
    for i := 0 to |rules|
      invariant best.None? <==> i == 0
      invariant best.Some? ==> best.value == BestOf(rules[..i], ctx)
    {
      assert rules[..i + 1][..i] == rules[..i];
      var decision := Evaluate(rules[i], ctx);
      if best.None? {
        best := Some(decision);
      } else if Louder(decision, best.value) {
        best := Some(decision);
      }
    }
    assert rules[..|rules|] == rules;
    d := if best.Some? then best.value else NoMatch([]);
  }

  // No rule is louder than the decision, and the first of the loudest rules gave it.
  lemma {:induction false} BestIsLoudest(rules: seq<Rule>, ctx: Context) returns (k: nat)
    requires rules != []
    ensures k < |rules| && Best(rules, ctx) == Evaluate(rules[k], ctx)
    ensures forall i :: 0 <= i < |rules| ==> !Louder(Evaluate(rules[i], ctx), Best(rules, ctx))
    ensures forall i :: 0 <= i < k ==> Louder(Best(rules, ctx), Evaluate(rules[i], ctx))
  {
    hide Evaluate;
    var n := |rules| - 1;
    if n == 0 {
      k := 0;
    } else {
      var inner := BestIsLoudest(rules[..n], ctx);
      var last := Evaluate(rules[n], ctx);
      assert forall i :: 0 <= i < n ==> rules[..n][i] == rules[i];
      k := if Louder(last, BestOf(rules[..n], ctx)) then n else inner;
    }
  }

  lemma NothingBelowNoMatch(rule: Rule, ctx: Context)
    ensures Evaluate(rule, ctx).risk.score >= 0
  {
  }

  // RULE ORDER DOES NOT MATTER: the same rules in any order, repeated or not, are as loud.
  lemma OrderIndependent(a: seq<Rule>, b: seq<Rule>, ctx: Context)
    requires forall r :: r in a <==> r in b
    ensures SamePair(Best(a, ctx), Best(b, ctx))
  {
    hide Evaluate, BestOf;
    if a == [] || b == [] {
      EmptyTogether(a, b);
    } else {
      var i := BestIsLoudest(a, ctx);
      var j := BestIsLoudest(b, ctx);
      assert a[i] in b && b[j] in a;
    }
  }

  lemma EmptyTogether(a: seq<Rule>, b: seq<Rule>)
    requires forall r :: r in a <==> r in b
    ensures a == [] <==> b == []
  {
    assert |a| > 0 ==> a[0] in a;
    assert |b| > 0 ==> b[0] in b;
  }

  // One more rule never makes a site quieter.
  lemma MoreRulesNeverQuieter(rules: seq<Rule>, extra: Rule, ctx: Context)
    ensures !Louder(Best(rules, ctx), Best(rules + [extra], ctx))
  {
    hide Evaluate;
    assert (rules + [extra])[..|rules|] == rules;
    NothingBelowNoMatch(extra, ctx);
  }

  // ---- One more detection ----------------------------------------------------------------------------

  function WithBox(ctx: Context, extra: Box): Context {
    ctx.(boxes := ctx.boxes + [extra])
  }

  // Standing in a restricted zone never counts against a sighting.
  predicate RestrictedCounts(rule: Rule) {
    Weight(rule.weights, RestrictedZone) >= 0 && Weight(rule.weights, VehicleInRestrictedZone) >= 0
  }

  function Only(b: bool, f: RiskFactor): set<RiskFactor> {
    if b then {f} else {}
  }

  // The factors that do not depend on where the detections stand.
  function FiredAnyway(ctx: Context): set<RiskFactor> {
    Fired(Sighting(ctx)) + Fired(Circumstances(ctx))
  }

  // Which factors fired, without their order. Where the detections stand matters only through the zones
  // matched: the frame may hold any boxes.
  lemma FiredFactors(ctx: Context, boxes: seq<Box>, m: ZoneMatch)
    ensures Fired(Factors(ctx.(boxes := boxes), m)) == FiredAnyway(ctx) + Only(InRestricted(m), RestrictedFactor(ctx))
  {
    hide Sighting, Circumstances, InRestricted, RestrictedFactor;
    var moved := ctx.(boxes := boxes);
    BoxesDoNotMatter(ctx, boxes);
    var fs := Factors(moved, m);
    assert forall f :: f in fs <==> f in FiredAnyway(moved) + Only(InRestricted(m), RestrictedFactor(moved));
  }

  lemma BoxesDoNotMatter(ctx: Context, boxes: seq<Box>)
    ensures Sighting(ctx.(boxes := boxes)) == Sighting(ctx) && Circumstances(ctx.(boxes := boxes)) == Circumstances(ctx)
    ensures RestrictedFactor(ctx.(boxes := boxes)) == RestrictedFactor(ctx)
  {
  }

  // The score does not drop when a match gains zones.
  lemma ScoreGrows(rule: Rule, ctx: Context, more: Context, m: ZoneMatch, n: ZoneMatch)
    requires more == ctx.(boxes := more.boxes) && RestrictedCounts(rule)
    requires InRestricted(m) ==> InRestricted(n)
    ensures Score(rule.weights, Factors(ctx, m)).score <= Score(rule.weights, Factors(more, n)).score
  {
    hide Factors, InRestricted, Score, FactorSum, Fired, FiredAnyway, Weight;
    var a, b := Factors(ctx, m), Factors(more, n);
    assert ctx.(boxes := ctx.boxes) == ctx;
    FiredFactors(ctx, ctx.boxes, m);
    FiredFactors(ctx, more.boxes, n);
    if InRestricted(m) == InRestricted(n) {
      ScoreIsClampedSum(rule.weights, a);
      ScoreIsClampedSum(rule.weights, b);
    } else {
      ScoreWithFactor(rule.weights, a, RestrictedFactor(ctx), b);
    }
  }

  // A rule that scores a frame scores it no lower once a detection is added to it.
  lemma EvaluateGrows(rule: Rule, ctx: Context, extra: Box)
    requires RestrictedCounts(rule)
    requires ctx.boxes != [] || !IsIgnored(MatchZones(extra, ctx.zones))
    ensures !Louder(Evaluate(rule, ctx), Evaluate(rule, WithBox(ctx, extra)))
  {
    hide Score, Factors, MatchUnion, MatchZones, Disqualified, Names, HasKind, Scored;
    var more := WithBox(ctx, extra);
    var m, n := MatchUnion(ctx.boxes, ctx.zones), MatchUnion(more.boxes, more.zones);
    EmptyScore(map[]);
    EmptyScore(rule.weights);
    NothingBelowNoMatch(rule, more);
    SameDisqualification(rule, ctx, more);
    if !IsIgnored(m) {
      MatchGrows(ctx.boxes, ctx.zones, extra);
      assert forall z :: z in Names(m) ==> z in Names(n) by { NamesGrow(m, n); }
      KindsGrow(m, n, Restricted);
      ScoreGrows(rule, ctx, more, m, n);
      ScoredGrows(rule, m, n, Score(rule.weights, Factors(ctx, m)), Score(rule.weights, Factors(more, n)));
    }
  }

  lemma SameDisqualification(rule: Rule, ctx: Context, more: Context)
    requires more == ctx.(boxes := more.boxes)
    ensures Disqualified(rule, more) == Disqualified(rule, ctx)
    ensures BelowConfidence(rule, more) == BelowConfidence(rule, ctx)
  {
  }

  lemma EmptyScore(ws: Weights)
    ensures Score(ws, []).score == 0
  {
  }

  lemma KindsGrow(m: ZoneMatch, n: ZoneMatch, kind: ZoneType)
    requires forall z :: z in m ==> z in n
    ensures HasKind(m, kind) ==> HasKind(n, kind)
  {
    assert forall i :: 0 <= i < |m| ==> m[i] in m;
  }

  lemma NamesGrow(m: ZoneMatch, n: ZoneMatch)
    requires forall z :: z in m ==> z in n
    ensures Names(m) <= Names(n)
  {
  }

  lemma ScoredGrows(rule: Rule, m: ZoneMatch, n: ZoneMatch, a: RiskScore, b: RiskScore)
    requires a.score <= b.score
    ensures !Louder(Scored(rule, m, a), Scored(rule, n, b))
  {
    SeverityMonotone(a.score, b.score);
  }

  predicate Silent(d: Decision) {
    !d.matched && d.risk.score == 0
  }

  // The first detection of a frame silences every rule when it stands in an IGNORE zone.
  lemma IgnoredFirstDetection(rule: Rule, ctx: Context, extra: Box)
    requires ctx.boxes == [] && IsIgnored(MatchZones(extra, ctx.zones))
    ensures Silent(Evaluate(rule, WithBox(ctx, extra)))
  {
    hide Score, Factors, Disqualified, MatchUnion, MatchZones, IsIgnored, Scored;
    EmptyScore(map[]);
    assert ctx.boxes + [extra] == [extra];
    IgnoredOnlyTogether([extra], ctx.zones);
  }

  // ONE MORE DETECTION never makes a site quieter, except exactly when it is the frame's only one,
  // stands in an IGNORE zone, and something was there to silence.
  lemma DetectionNeverQuieter(rules: seq<Rule>, ctx: Context, extra: Box)
    requires forall i :: 0 <= i < |rules| ==> RestrictedCounts(rules[i])
    ensures !Louder(Best(rules, ctx), Best(rules, WithBox(ctx, extra)))
       <==> ctx.boxes != [] || !IsIgnored(MatchZones(extra, ctx.zones)) || Silent(Best(rules, ctx))
  {
    hide Evaluate, MatchZones, IsIgnored, BestOf, RestrictedCounts;
    if rules != [] {
      var i := BestIsLoudest(rules, ctx);
      var j := BestIsLoudest(rules, WithBox(ctx, extra));
      NothingBelowNoMatch(rules[i], ctx);
      NothingBelowNoMatch(rules[j], WithBox(ctx, extra));
      if ctx.boxes != [] || !IsIgnored(MatchZones(extra, ctx.zones)) {
        EvaluateGrows(rules[i], ctx, extra);
      } else {
        IgnoredFirstDetection(rules[j], ctx, extra);
      }
    } else {
      EmptyScore(map[]);
    }
  }

  // The rule may alarm on the vendor's word alone, or the AI does not speak against it.
  predicate AiAgrees(rule: Rule, ctx: Context) {
    if ctx.aiAvailable then ctx.aiConfidence.Some? ==> ctx.aiConfidence.value >= rule.minAiConfidence
    else rule.ifAiUnavailable == AlertOnVendorEvent
  }

  // WHEN A RULE MATCHES, exactly; and a critical match always escalates.
  lemma MatchesExactly(rule: Rule, ctx: Context)
    ensures var d, m := Evaluate(rule, ctx), MatchUnion(ctx.boxes, ctx.zones);
            && (d.matched <==>
                  && !Disqualified(rule, ctx) && AiAgrees(rule, ctx)
                  && !IsIgnored(m) && !OutsideZones(rule, m)
                  && Rank(SeverityFor(Score(rule.weights, Factors(ctx, m)).score)) >= Rank(rule.minSeverity))
            && (d.matched ==> d.zoneMatch == m && d.risk == Score(rule.weights, Factors(ctx, m)))
            && (d.matched ==> rule.actions <= d.actions)
            && (d.matched ==> (Escalate in d.actions <==> Escalate in rule.actions || SeverityFor(d.risk.score) == Critical))
  {
    hide Score, Factors, MatchUnion, Disqualified, OutsideZones, IsIgnored;
  }
}
