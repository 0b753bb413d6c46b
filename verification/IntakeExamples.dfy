// Deliveries for which the intake does what its documentation does not lead one to expect.
module IntakeExamples {
  import opened AlarmCover
  import opened AlarmFlow
  import opened Clock
  import opened Intake
  import opened IntakeRuns
  import opened Options
  import opened Risk
  import Dedup
  import Rules
  import Schedules
  import Suppression
  import Zones

  const WINDOW: int := 60 * SECOND

  const NOTHING_DOWN: Suppression.Outages := Suppression.Outages({}, {})

  // A rule that pushes for every person seen while its schedule is on.
  function Guard(s: Schedules.Schedule): Rules.Rule {
    Rules.Rule("guard", {"person_detected"}, s, "UTC", {}, {}, 0.0, {Rules.Push}, Rules.AlertOnVendorEvent, Info, true,
               map[])
  }

  // A site with that rule, no zones and the clock of the example.
  function Guarded(s: Schedules.Schedule): SiteContext {
    SiteContext("UTC", (t: int, tz: string) => t, [Guard(s)], map[], map[], false, {})
  }

  const ALWAYS: Schedules.Schedule := Schedules.Schedule(0, 0, Schedules.ALL_DAYS)

  function Person(at: int): IngestedEvent { IngestedEvent(0, 0, "person_detected", None, at, "key") }

  function Mail(id: string, at: int, images: seq<Media>): IngestResult {
    IngestResult(0, id, Some(Person(at)), images, false, false)
  }

  function Send(id: string, at: int, images: seq<Media>): Delivery {
    Delivery(Mail(id, at, images), Some(Guarded(ALWAYS)), NOTHING_DOWN, i => true, at)
  }

  // The rule decides by its schedule alone.
  lemma GuardDecides(s: Schedules.Schedule, at: int)
    ensures var d := Scored(Person(at), Guarded(s), AI_UNAVAILABLE);
            (d.matched <==> Schedules.IsActive(s, at)) && (d.matched ==> Rules.Push in d.actions)
  {
    hide Schedules.IsActive, Rules.Factors, Score;
    var c := EvaluationContext(Person(at), Guarded(s), AI_UNAVAILABLE);
    Rules.MatchesExactly(Guard(s), c);
    OneRule(Guard(s), c);
    assert c.boxes == [] && c.zones == [] && c.localTime("UTC") == at;
    assert Zones.MatchUnion([], []) == [];
  }

  lemma OneRule(rule: Rules.Rule, c: Rules.Context)
    ensures Rules.Best([rule], c) == Rules.Evaluate(rule, c)
  {
    hide Rules.Evaluate;
  }

  // A person on a guarded site is an alarm, with a push, exactly when the window of the key is not open.
  lemma PersonAlarms(w: World, id: string, at: int, images: seq<Media>)
    ensures var o := FlowOf(WINDOW, w, Send(id, at, images));
            && (o.stage == ALARMED <==> Dedup.Opens(WINDOW, Dedup.Lookup(w.entries, "key"), at))
            && (o.stage == ALARMED ==> o.push && o.decision.Some?)
  {
    hide Scored, EvaluationContext, Dedup.Opens;
    GuardDecides(ALWAYS, at);
    assert Schedules.IsActive(ALWAYS, at);
  }

  const FRESH: World := World(EMPTY, map[], map[])

  // ---- Two snapshots --------------------------------------------------------------------------------------------

  const TWO: seq<Media> := [Media("a"), Media("b")]

  lemma TwoLand()
    ensures StoredImages(TWO, Landed(TWO, i => true)) == 2
  {
    assert TWO[..1] == [Media("a")] && TWO[..1][..0] == [];
    assert Landed(TWO[..1], i => true) == {"a"};
    assert Landed(TWO, i => true) == {"a", "b"};
    assert StoredImages(TWO[..1], {"a", "b"}) == 1;
  }

  // A mail with two good snapshots is an alarm, is refused, and a second later is no alarm any more.
  lemma TwoSnapshotsLoseTheAlarm()
    ensures var first, again := Send("m", 0, TWO), Send("m", SECOND, TWO);
            var after := Handled(WINDOW, FRESH, first);
            && FlowOf(WINDOW, FRESH, first).stage == ALARMED && !GoesThrough(WINDOW, FRESH, first)
            && after.tables == EMPTY && FlowOf(WINDOW, after, again).stage != ALARMED
            && Handled(WINDOW, after, again).tables.alarms == []
  {
    hide FlowOf, Handled, GoesThrough, Landed, StoredImages;
    var first, again := Send("m", 0, TWO), Send("m", SECOND, TWO);
    PersonAlarms(FRESH, "m", 0, TWO);
    EmptyIsSound();
    TwoLand();
    GoesThroughExactly(WINDOW, FRESH, first);
    RefusedAlarmIsLost(WINDOW, FRESH, first, [], again);
    assert Run(WINDOW, Handled(WINDOW, FRESH, first), []) == Handled(WINDOW, FRESH, first);
  }

  // ---- A resend after the window --------------------------------------------------------------------------------

  lemma FirstIsStored(id: string)
    requires id != ""
    ensures var d, w := Send(id, 0, []), Handled(WINDOW, FRESH, Send(id, 0, []));
            && GoesThrough(WINDOW, FRESH, d) && ReplyTo(WINDOW, FRESH, d).notified == Some(1)
            && EventOf(w.tables, id) == Some(0) && Sound(w.tables)
            && w.entries == map["key" := Dedup.Entry(0, 0, 1)]
  {
    hide FlowOf, Landed, Noted;
    var d := Send(id, 0, []);
    PersonAlarms(FRESH, id, 0, []);
    EmptyIsSound();
    EventsAreAlwaysKept(WINDOW, FRESH, d);
    GoesThroughExactly(WINDOW, FRESH, d);
    DeliveryStaysSound(WINDOW, FRESH, d);
    FirstEntry(id);
  }

  lemma FirstEntry(id: string)
    ensures Noted(WINDOW, map[], Mail(id, 0, []), NOTHING_DOWN, MomentOf(Mail(id, 0, []), None))
         == map["key" := Dedup.Entry(0, 0, 1)]
  {
  }

  // The same mail a window later stores nothing and pushes to no phone, yet is shown as an alarm of the first event.
  lemma ResendShowsAlarm()
    ensures var w, again := Handled(WINDOW, FRESH, Send("m", 0, [])), Send("m", WINDOW, []);
            ReplyTo(WINDOW, w, again) == Result(false, Some(0), None, true, AlarmFrame(Some(0)), None)
  {
    hide FlowOf, Handled, GoesThrough;
    var w, again := Handled(WINDOW, FRESH, Send("m", 0, [])), Send("m", WINDOW, []);
    FirstIsStored("m");
    PersonAlarms(w, "m", WINDOW, []);
    GoesThroughExactly(WINDOW, w, again);
    PushMeansAlarm(WINDOW, w, again);
    FrameWithoutRow(WINDOW, w, again);
  }

  // Whenever the mail comes again, with whatever in between, only the heartbeat moves, though its arrival is
  // stamped anew.
  lemma LateResendOnlyBeats(id: string, between: seq<Step>, at: int)
    requires id != ""
    ensures var later := Run(WINDOW, Handled(WINDOW, FRESH, Send(id, 0, [])), between);
            Handled(WINDOW, later, Send(id, at, [])).tables == WithHeartbeat(later.tables, 0, at)
    ensures at != 0 ==> Send(id, at, []).r != Send(id, 0, []).r
  {
    hide FlowOf, Handled, GoesThrough, WithHeartbeat;
    EmptyIsSound();
    GoesThroughExactly(WINDOW, FRESH, Send(id, 0, []));
    ResendOnlyBeats(WINDOW, FRESH, Send(id, 0, []), between, Send(id, at, []));
    assert Person(at).receivedAt == at && Person(0).receivedAt == 0;
  }

  // ---- A restart ------------------------------------------------------------------------------------------------

  // After a restart the next sighting is an alarm again, however soon it comes.
  lemma RestartForgetsWindow(at: int)
    ensures var w := Run(WINDOW, FRESH, [Deliver(Send("m", 0, [])), Restart]);
            FlowOf(WINDOW, w, Send("n", at, [])).stage == ALARMED
  {
    hide FlowOf, Handled;
    var steps := [Deliver(Send("m", 0, [])), Restart];
    assert Run(WINDOW, FRESH, steps).entries == map[];
    PersonAlarms(Run(WINDOW, FRESH, steps), "n", at, []);
  }

  // ---- A sighting before the schedule opens -----------------------------------------------------------------------

  const SOON: Schedules.Schedule := Schedules.Schedule(10 * SECOND, 20 * SECOND, Schedules.ALL_DAYS)

  function Seen(at: int): Turn { Turn(Mail("m", at, []), Guarded(SOON), NOTHING_DOWN, AI_UNAVAILABLE, at) }

  lemma SeenMatches(at: int)
    requires at in {9 * SECOND, 11 * SECOND}
    ensures RulesMatch(Seen(at)) <==> at == 11 * SECOND
    ensures IsSighting(Seen(at), "key")
  {
    hide SomeRuleMatches, LoudestMatch, Scored;
    GuardDecides(SOON, at);
    BestMatches(Person(at), Guarded(SOON), AI_UNAVAILABLE);
    assert Schedules.Weekday(at) == 0 && Schedules.TimeOfDay(at) == at;
  }

  // A person seen a second before the schedule opens raises nothing, and hides the person seen a second after.
  lemma EarlySightingHidesMatch()
    ensures var turns := [Seen(9 * SECOND), Seen(11 * SECOND)];
            && IsSighting(turns[1], "key") && RulesMatch(turns[1])
            && !exists k :: AlarmsAt(WINDOW, turns, k, "key")
  {
    hide RulesMatch, OpensAt, AlarmsAt, IsSighting;
    var turns := [Seen(9 * SECOND), Seen(11 * SECOND)];
    SeenMatches(9 * SECOND);
    SeenMatches(11 * SECOND);
    SecondIsInside(turns);
    forall k: nat
      ensures !AlarmsAt(WINDOW, turns, k, "key")
    {
      if k < 2 { AlarmIsAnOpening(WINDOW, turns, k, "key"); } else { NoSuchTurn(turns, k); }
    }
  }

  lemma SecondIsInside(turns: seq<Turn>)
    requires turns == [Seen(9 * SECOND), Seen(11 * SECOND)]
    ensures !OpensAt(WINDOW, turns, 1, "key")
  {
    hide EntriesAt;
    NothingAtFirst(WINDOW, turns);
    EntriesStep(WINDOW, turns, 0);
  }

  lemma NoSuchTurn(turns: seq<Turn>, k: nat)
    requires k >= |turns|
    ensures !AlarmsAt(WINDOW, turns, k, "key")
  {
  }
}
