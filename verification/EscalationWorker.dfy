// The loop that makes an unanswered alarm louder. The delivery table is its only memory.
module EscalationWorker {
  import opened Clock
  import opened Options
  import opened Escalation
  import Transport

  datatype AlarmRow = AlarmRow(
    id: nat, policy: Policy, openedAt: int, acknowledgedAt: Option<int>, resolvedAt: Option<int>)

  // One row per notified phone.
  datatype Delivery = Delivery(alarm: nat, step: nat)

  // One call of the dispatcher by the worker.
  datatype Dispatch = Dispatch(alarm: nat, step: nat, at: int)

  const MAX_AGE: int := 7200 * SECOND

  // How many phones an escalation step of an alarm reaches at the time of a sweep.
  type Audience = (AlarmRow, Step) -> nat

  datatype Ledger = Ledger(deliveries: seq<Delivery>, dispatched: seq<Dispatch>)

  function DeliveredSteps(deliveries: seq<Delivery>, alarm: nat): set<nat> {
    set d | d in deliveries && d.alarm == alarm :: d.step
  }

  function Rows(alarm: nat, step: nat, n: nat): (r: seq<Delivery>)
    ensures |r| == n && forall i :: 0 <= i < n ==> r[i] == Delivery(alarm, step)
  {
    seq(n, i => Delivery(alarm, step))
  }

  // The delivery rows as this loop reads them back.
  function DeliveriesOf(rows: seq<Transport.Row>): seq<Delivery> {
    seq(|rows|, i requires 0 <= i < |rows| => Delivery(rows[i].alarm, rows[i].step))
  }

  // A dispatch to n recipients adds n such rows, whatever became of each push.
  lemma DispatchAddsRows(
    rows: seq<Transport.Row>, alarm: nat, step: nat, results: seq<(Transport.Recipient, Transport.Result)>, now: int)
    ensures DeliveriesOf(rows + Transport.RowsFor(alarm, step, results, now))
         == DeliveriesOf(rows) + Rows(alarm, step, |results|)
  {
    hide Transport.RowsFor;
  }

  function ClimbOf(a: AlarmRow, deliveries: seq<Delivery>): Climb {
    Climb(a.openedAt, a.policy, a.acknowledgedAt, a.resolvedAt, DeliveredSteps(deliveries, a.id))
  }

  // One due step: dispatched when somebody can be reached, spent silently otherwise.
  function EscalateStep(l: Ledger, a: AlarmRow, step: Step, now: int, audience: Audience): Ledger
    requires step in a.policy.steps
  {
    var n := audience(a, step);
    if n == 0 then l
    else
      var index := IndexOf(a.policy.steps, step);
      Ledger(l.deliveries + Rows(a.id, index, n), l.dispatched + [Dispatch(a.id, index, now)])
  }

  function EscalateSteps(l: Ledger, a: AlarmRow, due: seq<Step>, now: int, audience: Audience): Ledger
    requires forall s :: s in due ==> s in a.policy.steps
  {
    if due == [] then l
    else EscalateStep(EscalateSteps(l, a, due[..|due| - 1], now, audience), a, due[|due| - 1], now, audience)
  }

  lemma {:induction false} DueComeFromPolicy(c: Climb, now: int, k: nat)
    requires k <= |c.policy.steps|
    ensures forall s :: s in DueAmong(c, now, k) ==> s in c.policy.steps
  {
    hide IsDue;
    if k > 0 { DueComeFromPolicy(c, now, k - 1); }
  }

  function EscalateAlarm(l: Ledger, a: AlarmRow, now: int, audience: Audience): Ledger {
    var c := ClimbOf(a, l.deliveries);
    DueComeFromPolicy(c, now, |c.policy.steps|);
    EscalateSteps(l, a, DueSteps(c, now), now, audience)
  }

  // Waiting for a human, and not older than the cut-off.
  predicate StillOpen(a: AlarmRow, now: int) {
    a.acknowledgedAt.None? && a.resolvedAt.None? && a.openedAt >= now - MAX_AGE
  }

  function OpenAlarms(alarms: seq<AlarmRow>, now: int): (r: seq<AlarmRow>)
    ensures forall a :: a in r <==> a in alarms && StillOpen(a, now)
  {
    if alarms == [] then []
    else
      var rest := OpenAlarms(alarms[..|alarms| - 1], now);
      var last := alarms[|alarms| - 1];
      assert alarms == alarms[..|alarms| - 1] + [last];
      if StillOpen(last, now) then rest + [last] else rest
  }

  function EscalateAll(l: Ledger, open: seq<AlarmRow>, now: int, audience: Audience): Ledger {
    if open == [] then l
    else EscalateAlarm(EscalateAll(l, open[..|open| - 1], now, audience), open[|open| - 1], now, audience)
  }

  function Sweep(l: Ledger, alarms: seq<AlarmRow>, now: int, audience: Audience): Ledger {
    EscalateAll(l, OpenAlarms(alarms, now), now, audience)
  }

  // ---- The worker -----------------------------------------------------------------------------------

  class EscalationDb {
    var alarms: seq<AlarmRow>
    var deliveries: seq<Delivery>
    ghost var dispatched: seq<Dispatch>

    ghost function Book(): Ledger
      reads this
    {
      Ledger(deliveries, dispatched)
    }

    method RunAlarm(a: AlarmRow, now: int, audience: Audience) returns (sent: seq<nat>)
      modifies this`deliveries, this`dispatched
      ensures Book() == EscalateAlarm(old(Book()), a, now, audience)
      ensures |dispatched| == |old(dispatched)| + |sent|
    {
      hide IsDue;
      var steps := DeliveredSteps(deliveries, a.id);
      var state := new EscalationState(a.openedAt, a.policy, a.acknowledgedAt, a.resolvedAt, steps);
      var due := state.Due(now);
      DueComeFromPolicy(state.Abstract(), now, |a.policy.steps|);
      sent := [];
      for i := 0 to |due|
        invariant Book() == EscalateSteps(old(Book()), a, due[..i], now, audience)
        invariant |dispatched| == |old(dispatched)| + |sent|
      {
        assert due[..i + 1][..i] == due[..i];
        assert due[i] in due;
        var recipients := audience(a, due[i]);
        if recipients == 0 {
          state.MarkDelivered(due[i]);
          continue;
        }
        var index := IndexOf(a.policy.steps, due[i]);
        deliveries := deliveries + Rows(a.id, index, recipients);
        dispatched := dispatched + [Dispatch(a.id, index, now)];
        state.MarkDelivered(due[i]);
        sent := sent + [index];
      }
      assert due[..|due|] == due;
    }

    method SweepOnce(now: int, audience: Audience)
      modifies this`deliveries, this`dispatched
      ensures Book() == Sweep(old(Book()), alarms, now, audience)
    {
      var open := OpenAlarms(alarms, now);
      for i := 0 to |open|
        invariant Book() == EscalateAll(old(Book()), open[..i], now, audience)
      {
        assert open[..i + 1][..i] == open[..i];
        var sent := RunAlarm(open[i], now, audience);
      }
      assert open[..|open|] == open;
    }
  }

  // ---- What a sweep dispatches, exactly ---------------------------------------------------------------

  // The worker owes step i of the alarm at this moment, and can reach somebody.
  predicate Owes(deliveries: seq<Delivery>, a: AlarmRow, i: nat, now: int, audience: Audience) {
    IsDue(ClimbOf(a, deliveries), i, now) && audience(a, a.policy.steps[i]) > 0
  }

  // The owed steps among the first k, in order.
  function Owed(deliveries: seq<Delivery>, a: AlarmRow, now: int, audience: Audience, k: nat): (r: seq<nat>)
    requires k <= |a.policy.steps|
    ensures forall i: nat :: i in r <==> i < k && Owes(deliveries, a, i, now, audience)
    ensures forall j :: 0 <= j < |r| ==> r[j] < k
    ensures forall i, j :: 0 <= i < j < |r| ==> r[i] < r[j]
  {
    if k == 0 then []
    else
      var rest := Owed(deliveries, a, now, audience, k - 1);
      if Owes(deliveries, a, k - 1, now, audience) then rest + [k - 1] else rest
  }

  function Dispatches(alarm: nat, steps: seq<nat>, at: int): (r: seq<Dispatch>)
    ensures |r| == |steps| && forall i :: 0 <= i < |r| ==> r[i] == Dispatch(alarm, steps[i], at)
  {
    seq(|steps|, i requires 0 <= i < |steps| => Dispatch(alarm, steps[i], at))
  }

  function AsSet(s: seq<nat>): set<nat> { set i | i in s }

  lemma DeliveredAppend(deliveries: seq<Delivery>, alarm: nat, step: nat, n: nat, x: nat)
    requires n > 0
    ensures DeliveredSteps(deliveries + Rows(alarm, step, n), x)
         == DeliveredSteps(deliveries, x) + if x == alarm then {step} else {}
  {
    var rows := Rows(alarm, step, n);
    var after := deliveries + rows;
    assert rows[0] in rows;
    forall s | s in DeliveredSteps(deliveries, x)
      ensures s in DeliveredSteps(after, x)
    {
      var d :| d in deliveries && d.alarm == x && d.step == s;
      assert d in after;
    }
    assert x == alarm ==> Delivery(alarm, step) in after;
  }

  // No step whose offset has passed repeats an earlier one, so looking a due step up finds it.
  ghost predicate Unambiguous(a: AlarmRow, now: int) {
    forall i, j :: 0 <= i < j < |a.policy.steps| && a.policy.steps[i] == a.policy.steps[j] ==>
                     now < a.openedAt + a.policy.steps[j].afterSeconds * SECOND
  }

  lemma DueIsFirst(c: Climb, a: AlarmRow, i: nat, now: int)
    requires c.policy == a.policy && c.openedAt == a.openedAt && Unambiguous(a, now) && IsDue(c, i, now)
    ensures a.policy.steps[i] !in a.policy.steps[..i]
  {
    assert forall j :: 0 <= j < i ==> a.policy.steps[..i][j] == a.policy.steps[j];
  }

  // Dispatching one more owed step, in the terms the sweep is described in.
  lemma EscalatedStep(l: Ledger, m: Ledger, a: AlarmRow, owed: seq<nat>, i: nat, now: int, audience: Audience, x: nat)
    requires i < |a.policy.steps| && a.policy.steps[i] !in a.policy.steps[..i] && audience(a, a.policy.steps[i]) > 0
    requires m.dispatched == l.dispatched + Dispatches(a.id, owed, now)
    requires DeliveredSteps(m.deliveries, x) == DeliveredSteps(l.deliveries, x) + if x == a.id then AsSet(owed) else {}
    ensures var n := EscalateStep(m, a, a.policy.steps[i], now, audience);
            && n.dispatched == l.dispatched + Dispatches(a.id, owed + [i], now)
            && DeliveredSteps(n.deliveries, x)
               == DeliveredSteps(l.deliveries, x) + if x == a.id then AsSet(owed + [i]) else {}
  {
    hide DeliveredSteps, Rows;
    FirstEqualStep(a.policy.steps, a.policy.steps[i], i);
    DeliveredAppend(m.deliveries, a.id, i, audience(a, a.policy.steps[i]), x);
    assert AsSet(owed + [i]) == AsSet(owed) + {i} by {
      assert forall j :: 0 <= j < |owed| ==> (owed + [i])[j] == owed[j];
      assert (owed + [i])[|owed|] == i;
    }
    assert Dispatches(a.id, owed + [i], now) == Dispatches(a.id, owed, now) + [Dispatch(a.id, i, now)];
  }

  // Escalating the steps due among the first k is dispatching exactly the owed ones, in order.
  lemma {:induction false} EscalatedSteps(l: Ledger, a: AlarmRow, now: int, audience: Audience, k: nat, x: nat)
    requires Unambiguous(a, now) && k <= |a.policy.steps|
    requires forall s :: s in DueAmong(ClimbOf(a, l.deliveries), now, k) ==> s in a.policy.steps
    ensures var m := EscalateSteps(l, a, DueAmong(ClimbOf(a, l.deliveries), now, k), now, audience);
            var owed := Owed(l.deliveries, a, now, audience, k);
            && m.dispatched == l.dispatched + Dispatches(a.id, owed, now)
            && DeliveredSteps(m.deliveries, x) == DeliveredSteps(l.deliveries, x) + if x == a.id then AsSet(owed) else {}
  {
    hide IsDue, DeliveredSteps, Unambiguous, Dispatches;
    if k == 0 {
      assert Owed(l.deliveries, a, now, audience, k) == [] && Dispatches(a.id, [], now) == [];
    } else {
      var c := ClimbOf(a, l.deliveries);
      var due, before := DueAmong(c, now, k), DueAmong(c, now, k - 1);
      assert forall s :: s in before ==> s in due;
      EscalatedSteps(l, a, now, audience, k - 1, x);
      if IsDue(c, k - 1, now) {
        assert due[..|due| - 1] == before && due[|due| - 1] == a.policy.steps[k - 1];
        assert !Owes(l.deliveries, a, k - 1, now, audience) <==> audience(a, a.policy.steps[k - 1]) == 0;
        if audience(a, a.policy.steps[k - 1]) > 0 {
          var m, owed := EscalateSteps(l, a, before, now, audience), Owed(l.deliveries, a, now, audience, k - 1);
          DueIsFirst(c, a, k - 1, now);
          EscalatedStep(l, m, a, owed, k - 1, now, audience, x);
        }
      } else {
        assert due == before;
      }
    }
  }

  lemma EscalatedAlarm(l: Ledger, a: AlarmRow, now: int, audience: Audience, x: nat)
    requires Unambiguous(a, now)
    ensures var m, owed := EscalateAlarm(l, a, now, audience), Owed(l.deliveries, a, now, audience, |a.policy.steps|);
            && m.dispatched == l.dispatched + Dispatches(a.id, owed, now)
            && DeliveredSteps(m.deliveries, x) == DeliveredSteps(l.deliveries, x) + if x == a.id then AsSet(owed) else {}
  {
    hide IsDue, DeliveredSteps, Unambiguous;
    DueComeFromPolicy(ClimbOf(a, l.deliveries), now, |a.policy.steps|);
    EscalatedSteps(l, a, now, audience, |a.policy.steps|, x);
  }

  ghost predicate DistinctAlarms(alarms: seq<AlarmRow>) {
    forall i, j :: 0 <= i < j < |alarms| ==> alarms[i].id != alarms[j].id
  }

  ghost predicate AllUnambiguous(open: seq<AlarmRow>, now: int) {
    forall i :: 0 <= i < |open| ==> Unambiguous(open[i], now)
  }

  // A delivery the sweep added was owed by one of the alarms it looked at.
  ghost predicate WasOwed(l: Ledger, open: seq<AlarmRow>, d: Dispatch, now: int, audience: Audience) {
    d.at == now && exists k :: 0 <= k < |open| && open[k].id == d.alarm && Owes(l.deliveries, open[k], d.step, now, audience)
  }

  lemma {:induction false} UntouchedAlarms(l: Ledger, open: seq<AlarmRow>, now: int, audience: Audience, x: nat)
    requires AllUnambiguous(open, now) && forall k :: 0 <= k < |open| ==> open[k].id != x
    ensures DeliveredSteps(EscalateAll(l, open, now, audience).deliveries, x) == DeliveredSteps(l.deliveries, x)
  {
    hide DeliveredSteps, EscalateAlarm, Unambiguous;
    if open != [] {
      var n := |open| - 1;
      UntouchedAlarms(l, open[..n], now, audience, x);
      assert Unambiguous(open[n], now);
      EscalatedAlarm(EscalateAll(l, open[..n], now, audience), open[n], now, audience, x);
    }
  }

  // What an alarm is owed depends only on its own delivery rows.
  lemma OwedByOwnRows(a: AlarmRow, x: seq<Delivery>, y: seq<Delivery>, now: int, audience: Audience)
    requires DeliveredSteps(x, a.id) == DeliveredSteps(y, a.id)
    ensures forall i :: Owes(x, a, i, now, audience) <==> Owes(y, a, i, now, audience)
    ensures forall k :: 0 <= k <= |a.policy.steps| ==> Owed(x, a, now, audience, k) == Owed(y, a, now, audience, k)
  {
    hide IsDue, DeliveredSteps;
    assert ClimbOf(a, x) == ClimbOf(a, y);
    forall k | 0 <= k <= |a.policy.steps|
      ensures Owed(x, a, now, audience, k) == Owed(y, a, now, audience, k)
    {
      OwedEqual(a, x, y, now, audience, k);
    }
  }

  lemma {:induction false} OwedEqual(a: AlarmRow, x: seq<Delivery>, y: seq<Delivery>, now: int, audience: Audience, k: nat)
    requires ClimbOf(a, x) == ClimbOf(a, y) && k <= |a.policy.steps|
    ensures Owed(x, a, now, audience, k) == Owed(y, a, now, audience, k)
  {
    hide IsDue, ClimbOf;
    if k > 0 { OwedEqual(a, x, y, now, audience, k - 1); }
  }

  lemma OpenAlarmUntouched(l: Ledger, open: seq<AlarmRow>, n: nat, now: int, audience: Audience)
    requires DistinctAlarms(open) && AllUnambiguous(open, now) && n < |open|
    ensures DeliveredSteps(EscalateAll(l, open[..n], now, audience).deliveries, open[n].id)
         == DeliveredSteps(l.deliveries, open[n].id)
  {
    hide DeliveredSteps, EscalateAll;
    UntouchedAlarms(l, open[..n], now, audience, open[n].id);
  }

  // Everything a sweep dispatches was owed when it began.
  lemma {:induction false} DispatchedWasOwed(l: Ledger, open: seq<AlarmRow>, now: int, audience: Audience)
    requires DistinctAlarms(open) && AllUnambiguous(open, now)
    ensures var m := EscalateAll(l, open, now, audience);
            && l.dispatched <= m.dispatched
            && forall i :: |l.dispatched| <= i < |m.dispatched| ==> WasOwed(l, open, m.dispatched[i], now, audience)
  {
    hide DeliveredSteps, EscalateAlarm, Unambiguous, Owes;
    if open != [] {
      var n := |open| - 1;
      var before, a := EscalateAll(l, open[..n], now, audience), open[n];
      DispatchedWasOwed(l, open[..n], now, audience);
      assert Unambiguous(a, now);
      EscalatedAlarm(before, a, now, audience, a.id);
      OpenAlarmUntouched(l, open, n, now, audience);
      OwedByOwnRows(a, before.deliveries, l.deliveries, now, audience);
      var m := EscalateAll(l, open, now, audience);
      var owed := Owed(l.deliveries, a, now, audience, |a.policy.steps|);
      forall i | |l.dispatched| <= i < |m.dispatched|
        ensures WasOwed(l, open, m.dispatched[i], now, audience)
      {
        if i < |before.dispatched| {
          assert WasOwed(l, open[..n], before.dispatched[i], now, audience);
          assert m.dispatched[i] == before.dispatched[i];
          var k :| 0 <= k < n && open[..n][k].id == m.dispatched[i].alarm
                   && Owes(l.deliveries, open[..n][k], m.dispatched[i].step, now, audience);
          assert open[k] == open[..n][k];
        } else {
          assert m.dispatched[i].step == owed[i - |before.dispatched|];
        }
      }
    }
  }

  // The sweep that led from l to m dispatched d.
  ghost predicate Sent(l: Ledger, m: Ledger, d: Dispatch) {
    exists j :: |l.dispatched| <= j < |m.dispatched| && m.dispatched[j] == d
  }

  lemma SentAt(l: Ledger, m: Ledger, j: nat)
    requires |l.dispatched| <= j < |m.dispatched|
    ensures Sent(l, m, m.dispatched[j])
  {
  }

  lemma LastOwedIsDispatched(l: Ledger, open: seq<AlarmRow>, now: int, audience: Audience, i: nat)
    requires DistinctAlarms(open) && AllUnambiguous(open, now)
    requires open != [] && Owes(l.deliveries, open[|open| - 1], i, now, audience)
    ensures var m := EscalateAll(l, open, now, audience);
            && Sent(l, m, Dispatch(open[|open| - 1].id, i, now))
            && i in DeliveredSteps(m.deliveries, open[|open| - 1].id)
  {
    hide DeliveredSteps, EscalateAlarm, Unambiguous, Owes;
    var n := |open| - 1;
    var before, a, m := EscalateAll(l, open[..n], now, audience), open[n], EscalateAll(l, open, now, audience);
    assert Unambiguous(a, now);
    DispatchedWasOwed(l, open[..n], now, audience);
    EscalatedAlarm(before, a, now, audience, a.id);
    OpenAlarmUntouched(l, open, n, now, audience);
    OwedByOwnRows(a, before.deliveries, l.deliveries, now, audience);
    OwesInPolicy(l.deliveries, a, i, now, audience);
    var owed := Owed(l.deliveries, a, now, audience, |a.policy.steps|);
    var j :| 0 <= j < |owed| && owed[j] == i;
    SentAt(l, m, |before.dispatched| + j);
  }

  // Everything owed when a sweep begins is dispatched and recorded by it.
  lemma {:induction false} OwedIsDispatched(l: Ledger, open: seq<AlarmRow>, now: int, audience: Audience, k: nat, i: nat)
    requires DistinctAlarms(open) && AllUnambiguous(open, now)
    requires k < |open| && Owes(l.deliveries, open[k], i, now, audience)
    ensures var m := EscalateAll(l, open, now, audience);
            && Sent(l, m, Dispatch(open[k].id, i, now))
            && i in DeliveredSteps(m.deliveries, open[k].id)
  {
    hide DeliveredSteps, EscalateAlarm, Unambiguous, Owes;
    var n := |open| - 1;
    if k == n {
      LastOwedIsDispatched(l, open, now, audience, i);
    } else {
      var before, m := EscalateAll(l, open[..n], now, audience), EscalateAll(l, open, now, audience);
      assert Unambiguous(open[n], now);
      EscalatedAlarm(before, open[n], now, audience, open[k].id);
      OwedIsDispatched(l, open[..n], now, audience, k, i);
      var j :| |l.dispatched| <= j < |before.dispatched| && before.dispatched[j] == Dispatch(open[k].id, i, now);
      SentAt(l, m, j);
    }
  }

  // What is recorded after a sweep is what was recorded before it and what was owed.
  lemma {:induction false} RecordedExactly(l: Ledger, open: seq<AlarmRow>, now: int, audience: Audience, k: nat, i: nat)
    requires DistinctAlarms(open) && AllUnambiguous(open, now) && k < |open|
    ensures i in DeliveredSteps(EscalateAll(l, open, now, audience).deliveries, open[k].id)
       <==> i in DeliveredSteps(l.deliveries, open[k].id) || Owes(l.deliveries, open[k], i, now, audience)
  {
    hide DeliveredSteps, EscalateAlarm, Unambiguous, Owes;
    var n := |open| - 1;
    var before, a := EscalateAll(l, open[..n], now, audience), open[n];
    assert Unambiguous(a, now);
    EscalatedAlarm(before, a, now, audience, open[k].id);
    if k < n {
      RecordedExactly(l, open[..n], now, audience, k, i);
    } else {
      OpenAlarmUntouched(l, open, n, now, audience);
      OwedByOwnRows(a, before.deliveries, l.deliveries, now, audience);
      if Owes(l.deliveries, a, i, now, audience) { OwesInPolicy(l.deliveries, a, i, now, audience); }
    }
  }

  lemma OwesInPolicy(deliveries: seq<Delivery>, a: AlarmRow, i: nat, now: int, audience: Audience)
    requires Owes(deliveries, a, i, now, audience)
    ensures i < |a.policy.steps|
  {
  }
}
