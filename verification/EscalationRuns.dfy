// Whole runs of the escalation loop: alarms raised, answered and pushed by intake, sweeps, restarts.
module EscalationRuns {
  import opened Clock
  import opened Options
  import opened Escalation
  import opened EscalationWorker

  // No step that comes within reach of a sweep repeats an earlier one; past the cut-off age no sweep looks.
  predicate NoRepeatInReach(p: Policy) {
    forall i, j :: 0 <= i < j < |p.steps| && p.steps[i] == p.steps[j] ==> p.steps[j].afterSeconds * SECOND > MAX_AGE
  }

  ghost predicate NoRepeats(alarms: seq<AlarmRow>) {
    forall i :: 0 <= i < |alarms| ==> NoRepeatInReach(alarms[i].policy)
  }

  lemma ReachIsUnambiguous(a: AlarmRow, now: int)
    requires NoRepeatInReach(a.policy) && StillOpen(a, now)
    ensures Unambiguous(a, now)
  {
  }

  // The built-in policies repeat nothing.
  lemma BuiltInPolicies(critical: bool)
    ensures NoRepeatInReach(PolicyFor(critical))
  {
  }

  // ---- One sweep over the alarm table -----------------------------------------------------------------

  lemma {:induction false} OpenKeepsIds(alarms: seq<AlarmRow>, now: int)
    requires DistinctAlarms(alarms) && NoRepeats(alarms)
    ensures DistinctAlarms(OpenAlarms(alarms, now)) && AllUnambiguous(OpenAlarms(alarms, now), now)
  {
    hide NoRepeatInReach, Unambiguous;
    if alarms != [] {
      var n := |alarms| - 1;
      OpenKeepsIds(alarms[..n], now);
      if StillOpen(alarms[n], now) { ReachIsUnambiguous(alarms[n], now); }
      var rest := OpenAlarms(alarms[..n], now);
      forall i | 0 <= i < |rest|
        ensures rest[i].id != alarms[n].id
      {
        assert rest[i] in rest;
        var k :| 0 <= k < n && alarms[..n][k] == rest[i];
      }
    }
  }

  // The alarm the dispatch belongs to was open and owed the step when the sweep began.
  ghost predicate Deserved(l: Ledger, alarms: seq<AlarmRow>, d: Dispatch, now: int, audience: Audience) {
    d.at == now && exists k :: 0 <= k < |alarms| && alarms[k].id == d.alarm && StillOpen(alarms[k], now)
                               && Owes(l.deliveries, alarms[k], d.step, now, audience)
  }

  // ONE SWEEP, EXACTLY: it dispatches what open alarms owe and nothing else.
  lemma SweepDispatchesOnlyOwed(l: Ledger, alarms: seq<AlarmRow>, now: int, audience: Audience)
    requires DistinctAlarms(alarms) && NoRepeats(alarms)
    ensures var m := Sweep(l, alarms, now, audience);
            && l.dispatched <= m.dispatched
            && forall i :: |l.dispatched| <= i < |m.dispatched| ==> Deserved(l, alarms, m.dispatched[i], now, audience)
  {
    hide AllUnambiguous, NoRepeatInReach, EscalateAll, Owes;
    OpenKeepsIds(alarms, now);
    var open := OpenAlarms(alarms, now);
    DispatchedWasOwed(l, open, now, audience);
    var m := Sweep(l, alarms, now, audience);
    forall i | |l.dispatched| <= i < |m.dispatched|
      ensures Deserved(l, alarms, m.dispatched[i], now, audience)
    {
      assert WasOwed(l, open, m.dispatched[i], now, audience);
      var k :| 0 <= k < |open| && open[k].id == m.dispatched[i].alarm
               && Owes(l.deliveries, open[k], m.dispatched[i].step, now, audience);
      assert open[k] in open;
      var j :| 0 <= j < |alarms| && alarms[j] == open[k];
    }
  }

  lemma SweepDispatchesAllOwed(l: Ledger, alarms: seq<AlarmRow>, now: int, audience: Audience, a: AlarmRow, i: nat)
    requires DistinctAlarms(alarms) && NoRepeats(alarms)
    requires a in alarms && StillOpen(a, now) && Owes(l.deliveries, a, i, now, audience)
    ensures var m := Sweep(l, alarms, now, audience);
            Sent(l, m, Dispatch(a.id, i, now)) && i in DeliveredSteps(m.deliveries, a.id)
  {
    hide AllUnambiguous, NoRepeatInReach, EscalateAll, Owes, DeliveredSteps, Sent;
    OpenKeepsIds(alarms, now);
    var open := OpenAlarms(alarms, now);
    var k :| 0 <= k < |open| && open[k] == a;
    OwedIsDispatched(l, open, now, audience, k, i);
  }

  // WHAT A SWEEP SETTLES, exactly. After a sweep, a step of an open alarm that is past its offset is recorded if
  // and only if it was before or reaches somebody now: no such step is late, and one that reaches nobody is not
  // spent.
  lemma SweepSettlesExactly(l: Ledger, alarms: seq<AlarmRow>, now: int, audience: Audience, a: AlarmRow, i: nat)
    requires DistinctAlarms(alarms) && NoRepeats(alarms)
    requires a in alarms && StillOpen(a, now) && i < |a.policy.steps|
    requires now >= a.openedAt + a.policy.steps[i].afterSeconds * SECOND
    ensures i in DeliveredSteps(Sweep(l, alarms, now, audience).deliveries, a.id)
       <==> i in DeliveredSteps(l.deliveries, a.id) || audience(a, a.policy.steps[i]) > 0
  {
    hide NoRepeatInReach, DeliveredSteps, EscalateAll;
    OpenKeepsIds(alarms, now);
    var open := OpenAlarms(alarms, now);
    var k :| 0 <= k < |open| && open[k] == a;
    RecordedExactly(l, open, now, audience, k, i);
  }

  // ---- The delivery table as memory -------------------------------------------------------------------

  // Every dispatch left its step recorded, and no step of an alarm was dispatched twice.
  ghost predicate Once(l: Ledger) {
    && (forall j :: 0 <= j < |l.dispatched| ==> Recorded(l.deliveries, l.dispatched[j]))
    && (forall j, k :: 0 <= j < k < |l.dispatched| ==> !SameStep(l.dispatched[j], l.dispatched[k]))
  }

  predicate Recorded(deliveries: seq<Delivery>, d: Dispatch) { d.step in DeliveredSteps(deliveries, d.alarm) }

  predicate SameStep(d: Dispatch, e: Dispatch) { d.alarm == e.alarm && d.step == e.step }

  lemma MemoryGrows(x: seq<Delivery>, more: seq<Delivery>, alarm: nat)
    ensures DeliveredSteps(x, alarm) <= DeliveredSteps(x + more, alarm)
  {
    forall s | s in DeliveredSteps(x, alarm)
      ensures s in DeliveredSteps(x + more, alarm)
    {
      var d :| d in x && d.alarm == alarm && d.step == s;
      assert d in x + more;
    }
  }

  lemma {:induction false} EscalatingRemembers(l: Ledger, open: seq<AlarmRow>, now: int, audience: Audience, alarm: nat)
    requires AllUnambiguous(open, now)
    ensures DeliveredSteps(l.deliveries, alarm) <= DeliveredSteps(EscalateAll(l, open, now, audience).deliveries, alarm)
  {
    hide Unambiguous, DeliveredSteps, EscalateAlarm;
    if open != [] {
      var n := |open| - 1;
      EscalatingRemembers(l, open[..n], now, audience, alarm);
      assert Unambiguous(open[n], now);
      EscalatedAlarm(EscalateAll(l, open[..n], now, audience), open[n], now, audience, alarm);
    }
  }

  lemma SweepRemembers(l: Ledger, alarms: seq<AlarmRow>, now: int, audience: Audience, alarm: nat)
    requires DistinctAlarms(alarms) && NoRepeats(alarms)
    ensures DeliveredSteps(l.deliveries, alarm) <= DeliveredSteps(Sweep(l, alarms, now, audience).deliveries, alarm)
  {
    hide AllUnambiguous, NoRepeatInReach, DeliveredSteps, EscalateAll;
    OpenKeepsIds(alarms, now);
    EscalatingRemembers(l, OpenAlarms(alarms, now), now, audience, alarm);
  }

  lemma AlarmKeepsOnce(l: Ledger, a: AlarmRow, now: int, audience: Audience)
    requires Unambiguous(a, now) && Once(l)
    ensures Once(EscalateAlarm(l, a, now, audience))
  {
    hide Unambiguous, DeliveredSteps, EscalateAlarm;
    var m, owed := EscalateAlarm(l, a, now, audience), Owed(l.deliveries, a, now, audience, |a.policy.steps|);
    EscalatedAlarm(l, a, now, audience, a.id);
    forall j | 0 <= j < |m.dispatched|
      ensures Recorded(m.deliveries, m.dispatched[j])
      ensures j < |l.dispatched| ==> m.dispatched[j] == l.dispatched[j]
      ensures j >= |l.dispatched| ==> m.dispatched[j] == Dispatch(a.id, owed[j - |l.dispatched|], now)
    {
      EscalatedAlarm(l, a, now, audience, m.dispatched[j].alarm);
      if j < |l.dispatched| {
        assert Recorded(l.deliveries, l.dispatched[j]);
      } else {
        assert owed[j - |l.dispatched|] in owed;
      }
    }
    forall j, k | 0 <= j < k < |m.dispatched|
      ensures !SameStep(m.dispatched[j], m.dispatched[k])
    {
      if k >= |l.dispatched| > j {
        var i := owed[k - |l.dispatched|];
        assert i in owed && Owes(l.deliveries, a, i, now, audience);
        assert Recorded(l.deliveries, l.dispatched[j]);
      }
    }
  }

  lemma {:induction false} EscalatingKeepsOnce(l: Ledger, open: seq<AlarmRow>, now: int, audience: Audience)
    requires AllUnambiguous(open, now) && Once(l)
    ensures Once(EscalateAll(l, open, now, audience))
  {
    hide Unambiguous, Once, EscalateAlarm;
    if open != [] {
      var n := |open| - 1;
      EscalatingKeepsOnce(l, open[..n], now, audience);
      assert Unambiguous(open[n], now);
      AlarmKeepsOnce(EscalateAll(l, open[..n], now, audience), open[n], now, audience);
    }
  }

  // ---- Runs -------------------------------------------------------------------------------------------

  datatype World = World(alarms: seq<AlarmRow>, ledger: Ledger, clock: int)

  // Raise stores a new alarm; Push is the dispatch intake makes for step 0 and RunSweep one sweep of the
  // worker. A restart loses the process and none of the tables.
  datatype Op =
    | Raise(alarm: nat, policy: Policy)
    | Acknowledge(alarm: nat)
    | Resolve(alarm: nat)
    | Push(alarm: nat, phones: nat)
    | RunSweep(audience: Audience)
    | Restart

  datatype Event = Event(at: int, op: Op)

  predicate Known(alarms: seq<AlarmRow>, id: nat) { exists k :: 0 <= k < |alarms| && alarms[k].id == id }

  function Acknowledged(a: AlarmRow, at: int): AlarmRow {
    if a.acknowledgedAt.Some? || a.resolvedAt.Some? then a else a.(acknowledgedAt := Some(at))
  }

  function Resolved(a: AlarmRow, at: int): AlarmRow {
    if a.resolvedAt.Some? then a
    else a.(resolvedAt := Some(at), acknowledgedAt := if a.acknowledgedAt.None? then Some(at) else a.acknowledgedAt)
  }

  function Answer(alarms: seq<AlarmRow>, id: nat, answer: AlarmRow -> AlarmRow): (r: seq<AlarmRow>)
    ensures |r| == |alarms|
    ensures forall k :: 0 <= k < |r| ==> r[k] == if alarms[k].id == id then answer(alarms[k]) else alarms[k]
  {
    seq(|alarms|, k requires 0 <= k < |alarms| => if alarms[k].id == id then answer(alarms[k]) else alarms[k])
  }

  function Next(w: World, e: Event): World {
    var (alarms, ledger) :=
      match e.op {
        case Raise(id, policy) =>
          (if Known(w.alarms, id) then w.alarms else w.alarms + [AlarmRow(id, policy, e.at, None, None)], w.ledger)
        case Acknowledge(id) => (Answer(w.alarms, id, a => Acknowledged(a, e.at)), w.ledger)
        case Resolve(id) => (Answer(w.alarms, id, a => Resolved(a, e.at)), w.ledger)
        case Push(id, phones) =>
          (w.alarms,
           if Known(w.alarms, id) then Ledger(w.ledger.deliveries + Rows(id, 0, phones), w.ledger.dispatched)
           else w.ledger)
        case RunSweep(audience) => (w.alarms, Sweep(w.ledger, w.alarms, e.at, audience))
        case Restart => (w.alarms, w.ledger)
      };
    World(alarms, ledger, e.at)
  }

  function Run(w: World, events: seq<Event>): World {
    if events == [] then w else Next(Run(w, events[..|events| - 1]), events[|events| - 1])
  }

  // The time of the event before event j.
  function Before(start: int, events: seq<Event>, j: nat): int
    requires j <= |events|
  {
    if j == 0 then start else events[j - 1].at
  }

  // The clock does not run backwards and no policy repeats a step within reach.
  ghost predicate Lawful(start: int, events: seq<Event>) {
    && (forall j :: 0 <= j < |events| ==> events[j].at >= Before(start, events, j))
    && (forall j :: 0 <= j < |events| && events[j].op.Raise? ==> NoRepeatInReach(events[j].op.policy))
  }

  // The dispatch came no earlier than the step's offset, no later than an answer, and within the
  // cut-off age.
  predicate Timely(a: AlarmRow, d: Dispatch, clock: int) {
    && a.id == d.alarm && d.step < |a.policy.steps|
    && a.openedAt + a.policy.steps[d.step].afterSeconds * SECOND <= d.at <= clock
    && d.at <= a.openedAt + 7200 * SECOND
    && (a.acknowledgedAt.Some? ==> d.at <= a.acknowledgedAt.value)
    && (a.resolvedAt.Some? ==> d.at <= a.resolvedAt.value)
  }

  ghost predicate Justified(alarms: seq<AlarmRow>, d: Dispatch, clock: int) {
    exists k :: 0 <= k < |alarms| && Timely(alarms[k], d, clock)
  }

  ghost predicate AllJustified(w: World) {
    forall j :: 0 <= j < |w.ledger.dispatched| ==> Justified(w.alarms, w.ledger.dispatched[j], w.clock)
  }

  ghost predicate Good(w: World) {
    DistinctAlarms(w.alarms) && NoRepeats(w.alarms) && Once(w.ledger) && AllJustified(w)
  }

  // Rows keep their identity; an answer is only ever recorded now.
  ghost predicate Evolves(before: seq<AlarmRow>, after: seq<AlarmRow>, now: int) {
    && |before| <= |after|
    && forall k :: 0 <= k < |before| ==> RowEvolves(before[k], after[k], now)
  }

  predicate RowEvolves(a: AlarmRow, b: AlarmRow, now: int) {
    && b.id == a.id && b.policy == a.policy && b.openedAt == a.openedAt
    && (b.acknowledgedAt == a.acknowledgedAt || b.acknowledgedAt == Some(now))
    && (b.resolvedAt == a.resolvedAt || b.resolvedAt == Some(now))
    && (a.acknowledgedAt.Some? ==> b.acknowledgedAt == a.acknowledgedAt)
    && (a.resolvedAt.Some? ==> b.resolvedAt == a.resolvedAt)
  }

  lemma AlarmsEvolve(w: World, e: Event)
    requires DistinctAlarms(w.alarms) && NoRepeats(w.alarms)
    requires e.op.Raise? ==> NoRepeatInReach(e.op.policy)
    ensures var after := Next(w, e).alarms;
            Evolves(w.alarms, after, e.at) && DistinctAlarms(after) && NoRepeats(after)
  {
    hide NoRepeatInReach, Sweep;
  }

  // An answer is recorded: an acknowledgement on an alarm nobody answered, a resolution on one not yet resolved (and
  // as its acknowledgement, if it had none); other alarms are left alone.
  lemma AnswersAreRecorded(w: World, id: nat, at: int, k: nat)
    requires k < |w.alarms|
    ensures var a := w.alarms[k];
            var acked, resolved := Next(w, Event(at, Acknowledge(id))).alarms, Next(w, Event(at, Resolve(id))).alarms;
            && |acked| == |resolved| == |w.alarms|
            && acked[k] == (if a.id == id && a.acknowledgedAt.None? && a.resolvedAt.None?
                            then AlarmRow(a.id, a.policy, a.openedAt, Some(at), None) else a)
            && resolved[k] == (if a.id != id || a.resolvedAt.Some? then a
                               else AlarmRow(a.id, a.policy, a.openedAt,
                                             if a.acknowledgedAt.Some? then a.acknowledgedAt else Some(at), Some(at)))
  {
  }

  lemma OldDispatchesStayJustified(w: World, alarms: seq<AlarmRow>, now: int, d: Dispatch)
    requires Justified(w.alarms, d, w.clock) && now >= w.clock && Evolves(w.alarms, alarms, now)
    ensures Justified(alarms, d, now)
  {
    var k :| 0 <= k < |w.alarms| && Timely(w.alarms[k], d, w.clock);
    assert RowEvolves(w.alarms[k], alarms[k], now);
    assert Timely(alarms[k], d, now);
  }

  lemma NewDispatchesAreJustified(l: Ledger, alarms: seq<AlarmRow>, d: Dispatch, now: int, audience: Audience)
    requires Deserved(l, alarms, d, now, audience)
    ensures Justified(alarms, d, now)
  {
    hide DeliveredSteps;
    var k :| 0 <= k < |alarms| && alarms[k].id == d.alarm && StillOpen(alarms[k], now)
             && Owes(l.deliveries, alarms[k], d.step, now, audience);
    assert Timely(alarms[k], d, now);
  }

  lemma SweepKeepsGood(w: World, now: int, audience: Audience)
    requires Good(w) && now >= w.clock
    ensures Good(Next(w, Event(now, RunSweep(audience))))
  {
    hide NoRepeatInReach, DistinctAlarms, NoRepeats, EscalateAll, Once, Justified, Deserved;
    OpenKeepsIds(w.alarms, now);
    EscalatingKeepsOnce(w.ledger, OpenAlarms(w.alarms, now), now, audience);
    SweepDispatchesOnlyOwed(w.ledger, w.alarms, now, audience);
    AlarmsEvolve(w, Event(now, RunSweep(audience)));
    var m := Sweep(w.ledger, w.alarms, now, audience);
    forall j | 0 <= j < |m.dispatched|
      ensures Justified(w.alarms, m.dispatched[j], now)
    {
      if j < |w.ledger.dispatched| {
        assert m.dispatched[j] == w.ledger.dispatched[j];
        OldDispatchesStayJustified(w, w.alarms, now, m.dispatched[j]);
      } else {
        NewDispatchesAreJustified(w.ledger, w.alarms, m.dispatched[j], now, audience);
      }
    }
  }

  lemma PushKeepsOnce(l: Ledger, more: seq<Delivery>)
    requires Once(l)
    ensures Once(Ledger(l.deliveries + more, l.dispatched))
  {
    hide DeliveredSteps;
    forall j | 0 <= j < |l.dispatched|
      ensures Recorded(l.deliveries + more, l.dispatched[j])
    {
      MemoryGrows(l.deliveries, more, l.dispatched[j].alarm);
      assert Recorded(l.deliveries, l.dispatched[j]);
    }
  }

  lemma StepKeepsGood(w: World, e: Event)
    requires Good(w) && e.at >= w.clock && (e.op.Raise? ==> NoRepeatInReach(e.op.policy))
    ensures Good(Next(w, e))
  {
    hide NoRepeatInReach, DistinctAlarms, NoRepeats, Sweep, Once, Justified, Evolves;
    AlarmsEvolve(w, e);
    if e.op.RunSweep? {
      SweepKeepsGood(w, e.at, e.op.audience);
    } else {
      if e.op.Push? { PushKeepsOnce(w.ledger, Rows(e.op.alarm, 0, e.op.phones)); }
      forall j | 0 <= j < |w.ledger.dispatched|
        ensures Justified(Next(w, e).alarms, w.ledger.dispatched[j], e.at)
      {
        OldDispatchesStayJustified(w, Next(w, e).alarms, e.at, w.ledger.dispatched[j]);
      }
    }
  }

  lemma LawfulPrefix(start: int, events: seq<Event>)
    requires Lawful(start, events) && events != []
    ensures Lawful(start, events[..|events| - 1])
    ensures events[|events| - 1].op.Raise? ==> NoRepeatInReach(events[|events| - 1].op.policy)
    ensures events[|events| - 1].at >= Before(start, events[..|events| - 1], |events| - 1)
  {
    hide NoRepeatInReach;
    var n := |events| - 1;
    assert forall j :: 0 <= j <= n ==> Before(start, events[..n], j) == Before(start, events, j);
    assert events[n].at >= Before(start, events, n);
  }

  // AT MOST ONCE, NEVER EARLY, NEVER AFTER AN ANSWER: what every run keeps, restarts included.
  lemma {:induction false} RunsStayGood(w: World, events: seq<Event>)
    requires Good(w) && Lawful(w.clock, events)
    ensures Good(Run(w, events)) && Run(w, events).clock == Before(w.clock, events, |events|)
  {
    hide Good, Next, Lawful, NoRepeatInReach;
    if events != [] {
      var n := |events| - 1;
      LawfulPrefix(w.clock, events);
      RunsStayGood(w, events[..n]);
      StepKeepsGood(Run(w, events[..n]), events[n]);
      NextClock(Run(w, events[..n]), events[n]);
    }
  }

  lemma NextClock(w: World, e: Event)
    ensures Next(w, e).clock == e.at
  {
  }

  lemma EmptyIsGood(clock: int)
    ensures Good(World([], Ledger([], []), clock))
  {
  }

  // A RECORDED STEP STAYS SILENT, whoever recorded it: the push intake made counts as step 0.
  lemma {:induction false} RecordedStaysSilent(w: World, events: seq<Event>, alarm: nat, step: nat)
    requires Good(w) && Lawful(w.clock, events) && step in DeliveredSteps(w.ledger.deliveries, alarm)
    ensures var m := Run(w, events).ledger;
            && w.ledger.dispatched <= m.dispatched
            && step in DeliveredSteps(m.deliveries, alarm)
            && forall j :: |w.ledger.dispatched| <= j < |m.dispatched| ==>
                             !(m.dispatched[j].alarm == alarm && m.dispatched[j].step == step)
  {
    hide Good, Next, Lawful, NoRepeatInReach, DeliveredSteps;
    if events != [] {
      var n := |events| - 1;
      LawfulPrefix(w.clock, events);
      RecordedStaysSilent(w, events[..n], alarm, step);
      RunsStayGood(w, events[..n]);
      RecordedStaysSilentOnce(Run(w, events[..n]), events[n], alarm, step);
    }
  }

  lemma RecordedStaysSilentOnce(w: World, e: Event, alarm: nat, step: nat)
    requires Good(w) && step in DeliveredSteps(w.ledger.deliveries, alarm)
    ensures var m := Next(w, e).ledger;
            && w.ledger.dispatched <= m.dispatched
            && step in DeliveredSteps(m.deliveries, alarm)
            && forall j :: |w.ledger.dispatched| <= j < |m.dispatched| ==>
                             !(m.dispatched[j].alarm == alarm && m.dispatched[j].step == step)
  {
    hide NoRepeatInReach, DistinctAlarms, NoRepeats, DeliveredSteps, Sweep, Once, AllJustified;
    match e.op {
      case Push(id, phones) => MemoryGrows(w.ledger.deliveries, Rows(id, 0, phones), alarm);
      case RunSweep(audience) =>
        SweepRemembers(w.ledger, w.alarms, e.at, audience, alarm);
        SweepDispatchesOnlyOwed(w.ledger, w.alarms, e.at, audience);
      case _ =>
    }
  }

  // ---- When each step goes out at most once, exactly ----------------------------------------------------

  // Events at times that do not run back, raising alarms with this policy only.
  ghost predicate RunsWith(p: Policy, start: int, events: seq<Event>) {
    && (forall j :: 0 <= j < |events| ==> events[j].at >= Before(start, events, j))
    && forall j :: 0 <= j < |events| && events[j].op.Raise? ==> events[j].op.policy == p
  }

  ghost predicate SendsOnce(p: Policy) {
    forall events :: RunsWith(p, 0, events) ==> Once(Run(EMPTY, events).ledger)
  }

  const EMPTY: World := World([], Ledger([], []), 0)

  // THE EXACT CONDITION. The runs of a policy dispatch each step of an alarm at most once if and only if no
  // step within the cut-off age repeats an earlier one.
  lemma SendsOnceExactly(p: Policy)
    ensures SendsOnce(p) <==> NoRepeatInReach(p)
  {
    hide Once, Run, NoRepeatInReach;
    if NoRepeatInReach(p) {
      forall events | RunsWith(p, 0, events)
        ensures Once(Run(EMPTY, events).ledger)
      {
        EmptyIsGood(0);
        RunsStayGood(EMPTY, events);
      }
    } else {
      var events := RepeatSendsTwice(p);
      assert RunsWith(p, 0, events);
    }
  }

  // A step repeated within reach: the worker looks both up as the first of them, and the first sweep after
  // the offset sends it twice.
  lemma RepeatSendsTwice(p: Policy) returns (events: seq<Event>)
    requires !NoRepeatInReach(p)
    ensures RunsWith(p, 0, events) && !Once(Run(EMPTY, events).ledger)
  {
    var i, j :| 0 <= i < j < |p.steps| && p.steps[i] == p.steps[j] && p.steps[j].afterSeconds * SECOND <= MAX_AGE;
    var a, now := AlarmRow(0, p, 0, None, None), p.steps[j].afterSeconds * SECOND;
    events := [Event(0, Raise(0, p)), Event(now, RunSweep(Everyone()))];
    RaisedThenSwept(a, now);
    RepeatedStep(a, now, i, j);
  }

  lemma RaisedThenSwept(a: AlarmRow, now: int)
    requires a == AlarmRow(0, a.policy, 0, None, None) && 0 <= now <= MAX_AGE
    ensures Run(EMPTY, [Event(0, Raise(0, a.policy)), Event(now, RunSweep(Everyone()))]).ledger
         == EscalateAlarm(EMPTY.ledger, a, now, Everyone())
  {
    hide EscalateAlarm, Next, Everyone;
    var raise, sweep := Event(0, Raise(0, a.policy)), Event(now, RunSweep(Everyone()));
    assert [raise, sweep] == [] + [raise] + [sweep];
    RunOneMore(EMPTY, [], raise);
    RunOneMore(EMPTY, [] + [raise], sweep);
    RaisedAlone(a);
    SweptAlone(EMPTY.ledger, a, now);
  }

  lemma RunOneMore(w: World, events: seq<Event>, e: Event)
    ensures Run(w, events + [e]) == Next(Run(w, events), e)
  {
    hide Next;
    assert (events + [e])[..|events|] == events;
  }

  lemma RaisedAlone(a: AlarmRow)
    requires a == AlarmRow(0, a.policy, 0, None, None)
    ensures Next(EMPTY, Event(0, Raise(0, a.policy))) == World([a], EMPTY.ledger, 0)
  {
  }

  lemma SweptAlone(l: Ledger, a: AlarmRow, now: int)
    requires StillOpen(a, now)
    ensures Next(World([a], l, 0), Event(now, RunSweep(Everyone()))).ledger == EscalateAlarm(l, a, now, Everyone())
  {
    hide EscalateAlarm, Everyone, EscalateAll, OpenAlarms, StillOpen;
    OpenAlone(a, now);
    EscalatedAlone(l, a, now, Everyone());
  }

  lemma OpenAlone(a: AlarmRow, now: int)
    requires StillOpen(a, now)
    ensures OpenAlarms([a], now) == [a]
  {
    hide StillOpen;
    assert [a][..0] == [];
    assert OpenAlarms([], now) == [];
  }

  lemma EscalatedAlone(l: Ledger, a: AlarmRow, now: int, audience: Audience)
    ensures EscalateAll(l, [a], now, audience) == EscalateAlarm(l, a, now, audience)
  {
    hide EscalateAlarm;
    assert [a][..0] == [];
    assert EscalateAll(l, [], now, audience) == l;
  }

  function Everyone(): Audience { (a: AlarmRow, step: Step) => 1 }

  lemma RepeatedStep(a: AlarmRow, now: int, i: nat, j: nat)
    requires i < j < |a.policy.steps| && a.policy.steps[i] == a.policy.steps[j]
    requires StillOpen(a, now) && now >= a.openedAt + a.policy.steps[j].afterSeconds * SECOND
    ensures !Once(EscalateAlarm(EMPTY.ledger, a, now, Everyone()))
  {
    hide IndexOf, DeliveredSteps, EscalateSteps;
    NothingDelivered(a);
    var c, n := ClimbOf(a, []), |a.policy.steps|;
    DueComeFromPolicy(c, now, n);
    DueStands(c, now, i, j);
    DueStands(c, now, i, n);
    DueStands(c, now, j, n);
    var due := DueSteps(c, now);
    DueAreSent(EMPTY.ledger, a, due, now);
    var m := EscalateAlarm(EMPTY.ledger, a, now, Everyone());
    assert SameStep(m.dispatched[|DueAmong(c, now, i)|], m.dispatched[|DueAmong(c, now, j)|]);
  }

  lemma NothingDelivered(a: AlarmRow)
    ensures ClimbOf(a, []).delivered == {}
  {
  }

  // A due step stands among the due ones after those due before it.
  lemma {:induction false} DueStands(c: Climb, now: int, i: nat, k: nat)
    requires i < k <= |c.policy.steps| && IsDue(c, i, now)
    ensures |DueAmong(c, now, i)| < |DueAmong(c, now, k)|
    ensures DueAmong(c, now, k)[|DueAmong(c, now, i)|] == c.policy.steps[i]
  {
    hide IsDue;
    if i < k - 1 { DueStands(c, now, i, k - 1); }
  }

  // With somebody behind every step, each of the steps is sent as the first step equal to it.
  lemma {:induction false} DueAreSent(l: Ledger, a: AlarmRow, due: seq<Step>, now: int)
    requires forall s :: s in due ==> s in a.policy.steps
    ensures var m := EscalateSteps(l, a, due, now, Everyone());
            && |m.dispatched| == |l.dispatched| + |due|
            && forall q :: 0 <= q < |due| ==>
                 m.dispatched[|l.dispatched| + q] == Dispatch(a.id, IndexOf(a.policy.steps, due[q]), now)
  {
    hide IndexOf, Rows, EscalateStep;
    if due != [] {
      var n := |due| - 1;
      assert due[n] in due && forall s :: s in due[..n] ==> s in due;
      DueAreSent(l, a, due[..n], now);
      StepIsSent(EscalateSteps(l, a, due[..n], now, Everyone()), a, due[n], now);
    }
  }

  lemma StepIsSent(l: Ledger, a: AlarmRow, step: Step, now: int)
    requires step in a.policy.steps
    ensures EscalateStep(l, a, step, now, Everyone()).dispatched
         == l.dispatched + [Dispatch(a.id, IndexOf(a.policy.steps, step), now)]
  {
    hide IndexOf, Rows;
  }

  // ---- Steps that reach nobody ----------------------------------------------------------------------------

  function Nobody(): Audience { (a: AlarmRow, step: Step) => 0 }

  // Whatever happens, an alarm keeps its identity, its policy and its opening time, and the clock moves on.
  lemma {:induction false} RowsKeepIdentity(w: World, events: seq<Event>, k: nat)
    requires Good(w) && Lawful(w.clock, events) && k < |w.alarms|
    ensures var m := Run(w, events);
            && m.clock >= w.clock && k < |m.alarms| && m.alarms[k].id == w.alarms[k].id
            && m.alarms[k].policy == w.alarms[k].policy && m.alarms[k].openedAt == w.alarms[k].openedAt
  {
    hide Next, Lawful, NoRepeatInReach, Once, AllJustified, DistinctAlarms;
    if events != [] {
      var n := |events| - 1;
      LawfulPrefix(w.clock, events);
      RunsStayGood(w, events[..n]);
      RowsKeepIdentity(w, events[..n], k);
      AlarmsEvolve(Run(w, events[..n]), events[n]);
      NextClock(Run(w, events[..n]), events[n]);
      assert RowEvolves(Run(w, events[..n]).alarms[k], Run(w, events).alarms[k], events[n].at);
    }
  }

  lemma SameRow(w: World, events: seq<Event>, a: AlarmRow, b: AlarmRow)
    requires Good(w) && Lawful(w.clock, events) && a in w.alarms && b in Run(w, events).alarms && b.id == a.id
    ensures b.policy == a.policy && b.openedAt == a.openedAt && Run(w, events).clock >= w.clock
  {
    hide Run, Lawful, NoRepeats, Once, AllJustified;
    RunsStayGood(w, events);
    var k :| 0 <= k < |w.alarms| && w.alarms[k] == a;
    RowsKeepIdentity(w, events, k);
    var m := Run(w, events);
    var j :| 0 <= j < |m.alarms| && m.alarms[j] == b;
    assert j == k;
  }

  // A SILENT STEP IS TRIED AGAIN. A step that was past its offset and reached nobody in one sweep stays unrecorded.
  // After any events, the next sweep that finds the alarm open and reaches somebody leaves it recorded, and
  // dispatches it unless something in between recorded it first.
  lemma SilentStepIsRetried(
    w: World, first: int, nobody: Audience, between: seq<Event>, later: int, somebody: Audience, a: AlarmRow,
    b: AlarmRow, i: nat)
    requires Good(w) && first >= w.clock && a in w.alarms && StillOpen(a, first) && i < |a.policy.steps|
    requires first >= a.openedAt + a.policy.steps[i].afterSeconds * SECOND
    requires i !in DeliveredSteps(w.ledger.deliveries, a.id) && nobody(a, a.policy.steps[i]) == 0
    requires Lawful(first, between) && later >= Before(first, between, |between|)
    requires b in Run(Next(w, Event(first, RunSweep(nobody))), between).alarms && b.id == a.id
    requires StillOpen(b, later) && somebody(b, a.policy.steps[i]) > 0
    ensures var quiet := Next(w, Event(first, RunSweep(nobody)));
            var found := Run(quiet, between);
            var loud := Next(found, Event(later, RunSweep(somebody)));
            && i !in DeliveredSteps(quiet.ledger.deliveries, a.id)
            && i in DeliveredSteps(loud.ledger.deliveries, a.id)
            && (i !in DeliveredSteps(found.ledger.deliveries, a.id) ==>
                  Sent(found.ledger, loud.ledger, Dispatch(a.id, i, later)))
  {
    hide DeliveredSteps, Sweep, Run, Lawful, Once, AllJustified, DistinctAlarms, NoRepeats, Sent;
    var quiet := Next(w, Event(first, RunSweep(nobody)));
    SweepSettlesExactly(w.ledger, w.alarms, first, nobody, a, i);
    SweepKeepsGood(w, first, nobody);
    RunsStayGood(quiet, between);
    SameRow(quiet, between, a, b);
    var found := Run(quiet, between);
    SweepSettlesExactly(found.ledger, found.alarms, later, somebody, b, i);
    if i !in DeliveredSteps(found.ledger.deliveries, a.id) {
      SweepDispatchesAllOwed(found.ledger, found.alarms, later, somebody, b, i);
    }
  }

  // Such a run, for every policy and every step in reach: raised, swept with nobody to reach, and swept again.
  lemma NobodyThenSomebody(p: Policy, i: nat)
    requires NoRepeatInReach(p) && i < |p.steps| && p.steps[i].afterSeconds <= 7200
    ensures var at := p.steps[i].afterSeconds * SECOND;
            var quiet := [Event(0, Raise(0, p)), Event(at, RunSweep(Nobody()))];
            && Run(EMPTY, quiet).ledger.dispatched == []
            && Dispatch(0, i, at) in Run(EMPTY, quiet + [Event(at, RunSweep(Everyone()))]).ledger.dispatched
  {
    hide Next, NoRepeatInReach, Nobody, Everyone;
    var at, a := p.steps[i].afterSeconds * SECOND, AlarmRow(0, p, 0, None, None);
    var raise, quiet, loud := Event(0, Raise(0, p)), Event(at, RunSweep(Nobody())), Event(at, RunSweep(Everyone()));
    RunOneMore(EMPTY, [], raise);
    RunOneMore(EMPTY, [] + [raise], quiet);
    RunOneMore(EMPTY, [raise, quiet], loud);
    assert [] + [raise] + [quiet] == [raise, quiet];
    RaisedAlone(a);
    RetriedAtOnce(a, at, i);
  }

  lemma RetriedAtOnce(a: AlarmRow, at: int, i: nat)
    requires a == AlarmRow(0, a.policy, 0, None, None) && NoRepeatInReach(a.policy) && i < |a.policy.steps|
    requires a.policy.steps[i].afterSeconds * SECOND == at <= MAX_AGE
    ensures var quiet := Next(World([a], EMPTY.ledger, 0), Event(at, RunSweep(Nobody())));
            && quiet.ledger.dispatched == []
            && Dispatch(0, i, at) in Next(quiet, Event(at, RunSweep(Everyone()))).ledger.dispatched
  {
    hide NoRepeatInReach, Sweep, DeliveredSteps, Sent;
    var w := World([a], EMPTY.ledger, 0);
    var quiet := Next(w, Event(at, RunSweep(Nobody())));
    NobodyIsSilent(EMPTY.ledger, [a], at);
    NothingDelivered(a);
    assert Run(quiet, []) == quiet;
    AloneIsGood(a);
    SilentStepIsRetried(w, at, Nobody(), [], at, Everyone(), a, a, i);
    SentIsIn(quiet.ledger, Next(quiet, Event(at, RunSweep(Everyone()))).ledger, Dispatch(0, i, at));
  }

  lemma AloneIsGood(a: AlarmRow)
    requires NoRepeatInReach(a.policy)
    ensures Good(World([a], EMPTY.ledger, 0))
  {
    hide NoRepeatInReach;
  }

  lemma NobodyIsSilent(l: Ledger, alarms: seq<AlarmRow>, now: int)
    requires DistinctAlarms(alarms) && NoRepeats(alarms)
    ensures Sweep(l, alarms, now, Nobody()).dispatched == l.dispatched
  {
    hide NoRepeatInReach, Sweep, IsDue;
    SweepDispatchesOnlyOwed(l, alarms, now, Nobody());
    var m := Sweep(l, alarms, now, Nobody());
    assert |m.dispatched| > |l.dispatched| ==> Deserved(l, alarms, m.dispatched[|l.dispatched|], now, Nobody());
  }

  lemma SentIsIn(l: Ledger, m: Ledger, d: Dispatch)
    requires Sent(l, m, d)
    ensures d in m.dispatched
  {
  }
}
