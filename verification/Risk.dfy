// Risk scoring and severity bands.
module Risk {
  datatype Severity = Info | Low | Medium | High | Critical

  datatype RiskFactor =
    | PersonDetected | VehicleDetected | OutsideBusinessHours | RestrictedZone
    | PerimeterRuleTriggered | RepeatedEntry | CameraTamperNearEvent | VehicleInRestrictedZone
    | LowAiConfidence | AiUnavailable | DeviceSilent

  function DefaultWeight(f: RiskFactor): int {
    match f
    case PersonDetected => 10
    case VehicleDetected => 5
    case OutsideBusinessHours => 25
    case RestrictedZone => 30
    case PerimeterRuleTriggered => 15
    case RepeatedEntry => 10
    case CameraTamperNearEvent => 20
    case VehicleInRestrictedZone => 20
    case LowAiConfidence => -15
    case AiUnavailable => 0
    case DeviceSilent => 25
  }

  // A rule overrides some of the weights.
  type Weights = map<RiskFactor, int>

  function Weight(ws: Weights, f: RiskFactor): int {
    if f in ws then ws[f] else DefaultWeight(f)
  }

  function Rank(s: Severity): nat {
    match s case Info => 0 case Low => 1 case Medium => 2 case High => 3 case Critical => 4
  }

  function SeverityFor(score: int): Severity {
    if score >= 85 then Critical
    else if score >= 70 then High
    else if score >= 50 then Medium
    else if score >= 30 then Low
    else Info
  }

  predicate Below(actual: Severity, minimum: Severity) {
    Rank(actual) < Rank(minimum)
  }

  // A factor and the points it contributed.
  datatype RiskReason = RiskReason(factor: RiskFactor, points: int)
  datatype RiskScore = RiskScore(score: int, reasons: seq<RiskReason>)

  function Clamp(total: int): (r: int)
    ensures 0 <= r <= 100
  {
    if total < 0 then 0 else if total > 100 then 100 else total
  }

  // The factors in order of first appearance.
  function Distinct(factors: seq<RiskFactor>): (r: seq<RiskFactor>)
    ensures forall f :: f in r <==> f in factors
    ensures forall i, j :: 0 <= i < j < |r| ==> r[i] != r[j]
  {
    if factors == [] then []
    else
      var seen := Distinct(factors[..|factors| - 1]);
      var last := factors[|factors| - 1];
      assert factors == factors[..|factors| - 1] + [last];
      if last in seen then seen else seen + [last]
  }

  function Total(ws: Weights, seen: seq<RiskFactor>): int {
    if seen == [] then 0 else Total(ws, seen[..|seen| - 1]) + Weight(ws, seen[|seen| - 1])
  }

  function Reasons(ws: Weights, seen: seq<RiskFactor>): seq<RiskReason> {
    seq(|seen|, i requires 0 <= i < |seen| => RiskReason(seen[i], Weight(ws, seen[i])))
  }

  function Score(ws: Weights, factors: seq<RiskFactor>): (r: RiskScore)
    ensures 0 <= r.score <= 100
  {
    RiskScore(Clamp(Total(ws, Distinct(factors))), Reasons(ws, Distinct(factors)))
  }

  method ComputeRisk(factors: seq<RiskFactor>, ws: Weights) returns (r: RiskScore)
    ensures r == Score(ws, factors)
  {
    var seen: seq<RiskFactor> := [];
    for i := 0 to |factors|
      invariant seen == Distinct(factors[..i])
    {
      assert factors[..i + 1][..i] == factors[..i];
      if factors[i] !in seen {
        seen := seen + [factors[i]];
      }
    }
    assert factors[..|factors|] == factors;
    var total := 0;
    for i := 0 to |seen|
      invariant total == Total(ws, seen[..i])
    {
      assert seen[..i + 1][..i] == seen[..i];
      total := total + Weight(ws, seen[i]);
    }
    assert seen[..|seen|] == seen;
    r := RiskScore(Clamp(total), Reasons(ws, seen));
  }

  // ---- The score is the sum over the factors that fired, each counted once -----------------------

  function Points(ws: Weights, fired: set<RiskFactor>, f: RiskFactor): int {
    if f in fired then Weight(ws, f) else 0
  }

  function FactorSum(ws: Weights, fired: set<RiskFactor>): int {
    Points(ws, fired, PersonDetected) + Points(ws, fired, VehicleDetected)
    + Points(ws, fired, OutsideBusinessHours) + Points(ws, fired, RestrictedZone)
    + Points(ws, fired, PerimeterRuleTriggered) + Points(ws, fired, RepeatedEntry)
    + Points(ws, fired, CameraTamperNearEvent) + Points(ws, fired, VehicleInRestrictedZone)
    + Points(ws, fired, LowAiConfidence) + Points(ws, fired, AiUnavailable) + Points(ws, fired, DeviceSilent)
  }

  lemma OneMoreFactor(ws: Weights, fired: set<RiskFactor>, f: RiskFactor)
    requires f !in fired
    ensures FactorSum(ws, fired + {f}) == FactorSum(ws, fired) + Weight(ws, f)
  {
    hide Weight;
    match f
    case PersonDetected =>
    case VehicleDetected =>
    case OutsideBusinessHours =>
    case RestrictedZone =>
    case PerimeterRuleTriggered =>
    case RepeatedEntry =>
    case CameraTamperNearEvent =>
    case VehicleInRestrictedZone =>
    case LowAiConfidence =>
    case AiUnavailable =>
    case DeviceSilent =>
  }

  function Fired(factors: seq<RiskFactor>): set<RiskFactor> {
    set f | f in factors
  }

  lemma {:induction false} TotalIsSum(ws: Weights, seen: seq<RiskFactor>)
    requires forall i, j :: 0 <= i < j < |seen| ==> seen[i] != seen[j]
    ensures Total(ws, seen) == FactorSum(ws, Fired(seen))
  {
    hide FactorSum, Weight;
    if seen == [] {
      NothingFired(ws);
      assert Fired(seen) == {};
    } else {
      var n := |seen| - 1;
      TotalIsSum(ws, seen[..n]);
      assert seen == seen[..n] + [seen[n]];
      assert Fired(seen) == Fired(seen[..n]) + {seen[n]};
      OneMoreFactor(ws, Fired(seen[..n]), seen[n]);
    }
  }

  lemma NothingFired(ws: Weights)
    ensures FactorSum(ws, {}) == 0
  {
  }

  // Order and repetition do not matter: the score is the clamped sum over the set that fired.
  lemma ScoreIsClampedSum(ws: Weights, factors: seq<RiskFactor>)
    ensures Score(ws, factors).score == Clamp(FactorSum(ws, Fired(factors)))
  {
    hide FactorSum;
    TotalIsSum(ws, Distinct(factors));
    assert Fired(Distinct(factors)) == Fired(factors);
  }

  // One more factor of non-negative weight never lowers the score.
  lemma ScoreWithFactor(ws: Weights, a: seq<RiskFactor>, extra: RiskFactor, b: seq<RiskFactor>)
    requires Fired(b) == Fired(a) + {extra} && Weight(ws, extra) >= 0
    ensures Score(ws, a).score <= Score(ws, b).score
  {
    hide FactorSum, Weight, Score, Fired;
    ScoreIsClampedSum(ws, a);
    ScoreIsClampedSum(ws, b);
    if extra in Fired(a) {
      assert Fired(b) == Fired(a);
    } else {
      OneMoreFactor(ws, Fired(a), extra);
    }
  }

  // A higher score is never a lower severity.
  lemma SeverityMonotone(a: int, b: int)
    requires a <= b
    ensures Rank(SeverityFor(a)) <= Rank(SeverityFor(b))
  {
  }
}
