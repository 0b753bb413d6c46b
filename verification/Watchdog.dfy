// How worried to be about one quiet recorder. Clocks are integer microseconds.
module Watchdog {
  import opened Clock
  import opened Options

  datatype SilenceState = Ok | Late | Silent | NeverSeen

  datatype Verdict = Verdict(state: SilenceState, silentFor: Option<int>, securityRelevant: bool)

  function LateAfter(intervalSeconds: int): int { intervalSeconds * SECOND }

  // The interval times the tolerance of 1.5.
  function SilentAfter(intervalSeconds: int): int { intervalSeconds * 3 * SECOND / 2 }

  // `armed` is whether the site counts as armed at this moment.
  function EvaluateSilence(last: Option<int>, now: int, intervalSeconds: int, armed: bool): Verdict {
    match last
    case None => Verdict(NeverSeen, None, false)
    case Some(at) =>
      var quiet := now - at;
      if quiet < LateAfter(intervalSeconds) then Verdict(Ok, Some(quiet), false)
      else if quiet < SilentAfter(intervalSeconds) then Verdict(Late, Some(quiet), false)
      else Verdict(Silent, Some(quiet), armed)
  }

  // Silence only deepens while nothing is heard.
  lemma SilenceLasts(last: Option<int>, now: int, later: int, interval: int, armed: bool, armedLater: bool)
    requires now <= later && EvaluateSilence(last, now, interval, armed).state == Silent
    ensures EvaluateSilence(last, later, interval, armedLater).state == Silent
  {
  }
}
