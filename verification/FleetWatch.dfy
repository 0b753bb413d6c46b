// The watchdog over its stored states: heartbeats, sweeps, and the alarms they leave.
module FleetWatch {
  import opened Options
  import opened Watchdog
  import opened SilenceSweep

  datatype Device = Device(id: nat, site: nat, tenant: nat, name: string, timezone: string)

  datatype StateRow = StateRow(last: Option<int>, interval: int, state: SilenceState, changedAt: Option<int>)

  const DEFAULT_INTERVAL: int := 1800

  type Rows = map<nat, StateRow>

  // The stored fleet: its recorders, their silence rows, and every alarm raised so far.
  datatype Fleet = Fleet(devices: seq<Device>, rows: Rows, alarms: seq<Alarm>)

  function StoredState(rows: Rows, device: nat): SilenceState {
    if device in rows then rows[device].state else NeverSeen
  }

  function LastHeard(rows: Rows, device: nat): Option<int> {
    if device in rows then rows[device].last else None
  }

  function IntervalOf(rows: Rows, device: nat): int {
    if device in rows then rows[device].interval else DEFAULT_INTERVAL
  }

  // The outer join of a recorder with its silence row.
  function SnapshotOf(d: Device, rows: Rows): Snapshot {
    Snapshot(d.id, d.site, d.tenant, d.name, LastHeard(rows, d.id), StoredState(rows, d.id), IntervalOf(rows, d.id), d.timezone)
  }

  function Snapshots(devices: seq<Device>, rows: Rows): (r: seq<Snapshot>)
    ensures |r| == |devices| && forall i :: 0 <= i < |r| ==> r[i] == SnapshotOf(devices[i], rows)
  {
    seq(|devices|, i requires 0 <= i < |devices| => SnapshotOf(devices[i], rows))
  }

  // A row after a sweep changed its state; a missing one is created.
  function Changed(rows: Rows, device: nat, state: SilenceState, now: int): StateRow {
    if device in rows then rows[device].(state := state, changedAt := Some(now))
    else StateRow(None, DEFAULT_INTERVAL, state, Some(now))
  }

  function ApplyChanges(rows: Rows, changes: map<nat, SilenceState>, now: int): Rows {
    map d | d in rows.Keys + changes.Keys :: if d in changes then Changed(rows, d, changes[d], now) else rows[d]
  }

  function Heartbeat(rows: Rows, device: nat, at: int): Rows {
    rows[device := if device !in rows then StateRow(Some(at), DEFAULT_INTERVAL, Ok, Some(at))
                   else if rows[device].state != Ok then rows[device].(last := Some(at), state := Ok, changedAt := Some(at))
                   else rows[device].(last := Some(at))]
  }

  // `written` is the clock reading the worker stamps on the rows it writes.
  function Sweep(f: Fleet, at: Moment, written: int): Fleet {
    var plan := PlanSweep(Snapshots(f.devices, f.rows), at);
    Fleet(f.devices, ApplyChanges(f.rows, plan.changes, written), f.alarms + plan.alarms)
  }

  // ---- The worker ------------------------------------------------------------------------------------

  class FleetDb {
    var devices: seq<Device>
    var rows: Rows
    var alarms: seq<Alarm>

    constructor (devices: seq<Device>)
      ensures Contents() == Fleet(devices, map[], [])
    {
      this.devices, rows, alarms := devices, map[], [];
    }

    function Contents(): Fleet
      reads this
    {
      Fleet(devices, rows, alarms)
    }

    method TouchHeartbeat(device: nat, at: int)
      modifies this`rows
      ensures rows == Heartbeat(old(rows), device, at)
    {
      if device !in rows {
        rows := rows[device := StateRow(Some(at), DEFAULT_INTERVAL, Ok, Some(at))];
        return;
      }
      var row := rows[device];
      if row.state != Ok {
        row := row.(state := Ok, changedAt := Some(at));
      }
      rows := rows[device := row.(last := Some(at))];
    }

    method LoadSnapshots() returns (snaps: seq<Snapshot>)
      ensures snaps == Snapshots(devices, rows)
      ensures forall i :: 0 <= i < |devices| ==>
                && snaps[i].device == devices[i].id && snaps[i].site == devices[i].site
                && snaps[i].tenant == devices[i].tenant && snaps[i].name == devices[i].name
                && snaps[i].timezone == devices[i].timezone
                && (devices[i].id in rows ==>
                      && snaps[i].last == rows[devices[i].id].last && snaps[i].stored == rows[devices[i].id].state
                      && snaps[i].interval == rows[devices[i].id].interval)
                && (devices[i].id !in rows ==>
                      snaps[i].last == None && snaps[i].stored == NeverSeen && snaps[i].interval == 1800)
    {
      snaps := [];
      for i := 0 to |devices|
        invariant snaps == Snapshots(devices[..i], rows)
      {
        snaps := snaps + [SnapshotOf(devices[i], rows)];
      }
      assert devices[..|devices|] == devices;
    }

    method ApplySweep(plan: SweepPlan, now: int)
      modifies this`rows, this`alarms
      ensures rows == ApplyChanges(old(rows), plan.changes, now)
      ensures alarms == old(alarms) + plan.alarms
    {
      hide ApplyChanges, Changed;
      ghost var before := rows;
      var todo := plan.changes.Keys;
      assert plan.changes - todo == map[];
      NothingToApply(rows, now);
      while todo != {}
        invariant todo <= plan.changes.Keys && alarms == old(alarms)
        invariant rows == ApplyChanges(before, plan.changes - todo, now)
        decreases |todo|
      {
        var d :| d in todo;
        ApplyOne(before, plan.changes, todo, d, now);
        rows := rows[d := Changed(rows, d, plan.changes[d], now)];
        todo := todo - {d};
      }
      assert plan.changes - todo == plan.changes;
      AppendAlarms(plan.alarms);
    }

    method AppendAlarms(raised: seq<Alarm>)
      modifies this`alarms
      ensures alarms == old(alarms) + raised
    {
      for i := 0 to |raised|
        invariant alarms == old(alarms) + raised[..i]
      {
        alarms := alarms + [raised[i]];
      }
    }

    method SweepOnce(at: Moment, written: int)
      modifies this`rows, this`alarms
      ensures Contents() == Sweep(old(Contents()), at, written)
    {
      var snaps := LoadSnapshots();
      var result := SweepFleet(snaps, at);
      if result.alarms != [] || result.changes != map[] {
        ApplySweep(result.Plan(), written);
      } else {
        NothingToApply(rows, written);
      }
    }
  }

  lemma ApplyOne(rows: Rows, changes: map<nat, SilenceState>, todo: set<nat>, d: nat, now: int)
    requires d in todo && todo <= changes.Keys
    ensures var done := ApplyChanges(rows, changes - todo, now);
            ApplyChanges(rows, changes - (todo - {d}), now) == done[d := Changed(done, d, changes[d], now)]
  {
    var done := ApplyChanges(rows, changes - todo, now);
    assert d in done <==> d in rows;
    assert d in rows ==> done[d] == rows[d];
  }

  lemma NothingToApply(rows: Rows, now: int)
    ensures ApplyChanges(rows, map[], now) == rows
  {
  }

  // ---- After a sweep -----------------------------------------------------------------------------------

  ghost predicate DistinctIds(devices: seq<Device>) {
    forall i, j :: 0 <= i < j < |devices| ==> devices[i].id != devices[j].id
  }

  function VerdictOn(rows: Rows, device: nat, now: int): SilenceState {
    EvaluateSilence(LastHeard(rows, device), now, IntervalOf(rows, device), false).state
  }

  lemma JudgedState(d: Device, rows: Rows, at: Moment)
    ensures Judge(SnapshotOf(d, rows), at).verdict.state == VerdictOn(rows, d.id, at.now)
  {
  }

  // Each recorder's stored state is the sweep's verdict on it, and nothing else of its row moved.
  lemma SweepStoresVerdicts(f: Fleet, at: Moment, written: int, i: nat)
    requires DistinctIds(f.devices) && i < |f.devices|
    ensures var d, rows := f.devices[i].id, Sweep(f, at, written).rows;
            && StoredState(rows, d) == VerdictOn(f.rows, d, at.now)
            && LastHeard(rows, d) == LastHeard(f.rows, d) && IntervalOf(rows, d) == IntervalOf(f.rows, d)
  {
    hide PlanSweep, Judge, EvaluateSilence;
    var snaps := Snapshots(f.devices, f.rows);
    assert snaps[i] in snaps;
    ChangesAreExact(snaps, at, snaps[i]);
    JudgedState(f.devices[i], f.rows, at);
    JudgeKeepsSnapshot(snaps[i], at);
  }

  // ---- Runs --------------------------------------------------------------------------------------------

  datatype Op =
    | HeartbeatAt(device: nat, at: int)
    | SweepAt(moment: Moment, written: int)
    | Enroll(recorder: Device)

  function Apply(f: Fleet, op: Op): Fleet {
    match op
    case HeartbeatAt(device, at) => f.(rows := Heartbeat(f.rows, device, at))
    case SweepAt(moment, written) => Sweep(f, moment, written)
    case Enroll(recorder) => f.(devices := f.devices + [recorder])
  }

  function Run(f: Fleet, ops: seq<Op>): Fleet {
    if ops == [] then f else Apply(Run(f, ops[..|ops| - 1]), ops[|ops| - 1])
  }

  // Recorders are enrolled once.
  ghost predicate Possible(f: Fleet, op: Op) {
    op.Enroll? ==> forall i :: 0 <= i < |f.devices| ==> f.devices[i].id != op.recorder.id
  }

  // No heartbeat of the recorder, and no sweep before `from`.
  predicate Unheard(op: Op, device: nat, from: int) {
    match op
    case HeartbeatAt(d, _) => d != device
    case SweepAt(moment, _) => moment.now >= from
    case Enroll(_) => true
  }

  // The recorder is known to be silent, and was already so at `from`.
  ghost predicate KnownSilent(f: Fleet, device: nat, from: int) {
    && DistinctIds(f.devices)
    && (exists i :: 0 <= i < |f.devices| && f.devices[i].id == device)
    && StoredState(f.rows, device) == Silent
    && VerdictOn(f.rows, device, from) == Silent
  }

  predicate RaisedFor(a: Alarm, device: nat) {
    a.kind == DeviceSilent && a.device == Some(device)
  }

  lemma SweepKeepsSilent(f: Fleet, at: Moment, written: int, device: nat, from: int)
    requires KnownSilent(f, device, from) && at.now >= from
    ensures KnownSilent(Sweep(f, at, written), device, from)
    ensures forall a :: a in PlanSweep(Snapshots(f.devices, f.rows), at).alarms ==> !RaisedFor(a, device)
  {
    hide PlanSweep, ApplyChanges, Judge;
    var i :| 0 <= i < |f.devices| && f.devices[i].id == device;
    SweepStoresVerdicts(f, at, written, i);
    SilenceLasts(LastHeard(f.rows, device), from, at.now, IntervalOf(f.rows, device), false, false);
    assert Sweep(f, at, written).devices[i].id == device;
    NoAlarmWhenKnown(f, at, device);
  }

  lemma NoAlarmWhenKnown(f: Fleet, at: Moment, device: nat)
    requires StoredState(f.rows, device) == Silent
    ensures forall a :: a in PlanSweep(Snapshots(f.devices, f.rows), at).alarms ==> !RaisedFor(a, device)
  {
    hide PlanSweep, Judge, IsSilent;
    var snaps := Snapshots(f.devices, f.rows);
    EveryAlarmHasCause(snaps, at);
    forall a | a in PlanSweep(snaps, at).alarms
      ensures !RaisedFor(a, device)
    {
      assert HasCause(a, snaps, at);
      var s :| s in snaps && s.site == a.site && NewlySilentAt(s, at) && s.device in a.devices;
      JudgeKeepsSnapshot(s, at);
      assert s.device != device;
    }
  }

  lemma StepKeepsSilent(f: Fleet, op: Op, device: nat, from: int)
    requires KnownSilent(f, device, from) && Possible(f, op) && Unheard(op, device, from)
    ensures KnownSilent(Apply(f, op), device, from)
    ensures f.alarms <= Apply(f, op).alarms
    ensures forall i :: |f.alarms| <= i < |Apply(f, op).alarms| ==> !RaisedFor(Apply(f, op).alarms[i], device)
  {
    hide PlanSweep, ApplyChanges;
    match op
    case HeartbeatAt(d, at) =>
    case SweepAt(moment, written) => SweepKeepsSilent(f, moment, written, device, from);
    case Enroll(recorder) =>
      var i :| 0 <= i < |f.devices| && f.devices[i].id == device;
      assert Apply(f, op).devices[i].id == device;
  }

  lemma {:induction false} StaysQuiet(f: Fleet, ops: seq<Op>, device: nat, from: int)
    requires KnownSilent(f, device, from)
    requires forall i :: 0 <= i < |ops| ==> Possible(Run(f, ops[..i]), ops[i]) && Unheard(ops[i], device, from)
    ensures KnownSilent(Run(f, ops), device, from) && f.alarms <= Run(f, ops).alarms
    ensures forall i :: |f.alarms| <= i < |Run(f, ops).alarms| ==> !RaisedFor(Run(f, ops).alarms[i], device)
  {
    hide KnownSilent, Apply, Possible, Unheard, RaisedFor;
    if ops != [] {
      var n := |ops| - 1;
      assert forall i :: 0 <= i < n ==> ops[..n][..i] == ops[..i];
      StaysQuiet(f, ops[..n], device, from);
      StepKeepsSilent(Run(f, ops[..n]), ops[n], device, from);
    }
  }

  // Whoever is named by a device alarm is a recorder of the fleet and was found silent.
  lemma NamedWasSilent(f: Fleet, at: Moment, device: nat) returns (i: nat)
    requires exists a :: a in PlanSweep(Snapshots(f.devices, f.rows), at).alarms && RaisedFor(a, device)
    ensures i < |f.devices| && f.devices[i].id == device && VerdictOn(f.rows, device, at.now) == Silent
  {
    hide PlanSweep, Judge, EvaluateSilence, VerdictOn;
    var snaps := Snapshots(f.devices, f.rows);
    var a :| a in PlanSweep(snaps, at).alarms && RaisedFor(a, device);
    EveryAlarmHasCause(snaps, at);
    assert HasCause(a, snaps, at);
    var s :| s in snaps && s.site == a.site && NewlySilentAt(s, at) && s.device in a.devices;
    i :| 0 <= i < |snaps| && snaps[i] == s;
    JudgedState(f.devices[i], f.rows, at);
  }

  lemma AlarmMeansSilent(f: Fleet, at: Moment, written: int, device: nat)
    requires DistinctIds(f.devices)
    requires exists a :: a in PlanSweep(Snapshots(f.devices, f.rows), at).alarms && RaisedFor(a, device)
    ensures KnownSilent(Sweep(f, at, written), device, at.now)
  {
    hide PlanSweep, RaisedFor, EvaluateSilence, Sweep;
    var i := NamedWasSilent(f, at, device);
    SweepStoresVerdicts(f, at, written, i);
    SweepKeepsDevices(f, at, written);
  }

  lemma SweepKeepsDevices(f: Fleet, at: Moment, written: int)
    ensures Sweep(f, at, written).devices == f.devices
  {
  }

  // A HEARTBEAT BETWEEN TWO ALARMS. After a sweep raised a device alarm for a recorder, no sweep
  // raises another one until the recorder is heard from, as long as the clock does not run back.
  lemma HeartbeatBetweenAlarms(f: Fleet, at: Moment, written: int, ops: seq<Op>, device: nat)
    requires DistinctIds(f.devices)
    requires exists a :: a in PlanSweep(Snapshots(f.devices, f.rows), at).alarms && RaisedFor(a, device)
    requires var g := Sweep(f, at, written);
             forall i :: 0 <= i < |ops| ==> Possible(Run(g, ops[..i]), ops[i]) && Unheard(ops[i], device, at.now)
    ensures var g, end := Sweep(f, at, written), Run(Sweep(f, at, written), ops);
            forall i :: |g.alarms| <= i < |end.alarms| ==> !RaisedFor(end.alarms[i], device)
  {
    hide PlanSweep, Sweep, KnownSilent, Possible, Unheard, RaisedFor;
    AlarmMeansSilent(f, at, written, device);
    StaysQuiet(Sweep(f, at, written), ops, device, at.now);
  }

  // ---- Every silence was said ------------------------------------------------------------------------------

  // The operation raises an alarm that names the recorder.
  ghost predicate Says(f: Fleet, op: Op, device: nat) {
    exists k :: |f.alarms| <= k < |Apply(f, op).alarms| && device in Apply(f, op).alarms[k].devices
  }

  lemma NewSilenceIsSaid(f: Fleet, at: Moment, written: int, device: nat)
    requires DistinctIds(f.devices)
    requires StoredState(f.rows, device) != Silent && StoredState(Sweep(f, at, written).rows, device) == Silent
    ensures Says(f, SweepAt(at, written), device)
  {
    hide PlanSweep, Judge, EvaluateSilence, VerdictOn;
    var i := ChangedIsEnrolled(f, at, written, device);
    var snaps := Snapshots(f.devices, f.rows);
    SweepStoresVerdicts(f, at, written, i);
    JudgedState(f.devices[i], f.rows, at);
    JudgeKeepsSnapshot(snaps[i], at);
    assert snaps[i] in snaps;
    NamedExactlyOnce(snaps, at, snaps[i]);
    var plan := PlanSweep(snaps, at);
    var k := SomeAlarmNames(plan.alarms, device);
    assert Apply(f, SweepAt(at, written)).alarms[|f.alarms| + k] == plan.alarms[k];
  }

  lemma ChangedIsEnrolled(f: Fleet, at: Moment, written: int, device: nat) returns (i: nat)
    requires StoredState(f.rows, device) != StoredState(Sweep(f, at, written).rows, device)
    ensures i < |f.devices| && f.devices[i].id == device
  {
    hide PlanSweep, Changed;
    var snaps := Snapshots(f.devices, f.rows);
    if forall s :: s in snaps ==> s.device != device {
      ChangesOnlyFleet(snaps, at, device);
    }
    var s :| s in snaps && s.device == device;
    i :| 0 <= i < |snaps| && snaps[i] == s;
  }

  ghost predicate PossibleThroughout(f: Fleet, ops: seq<Op>) {
    forall i :: 0 <= i < |ops| ==> Possible(Run(f, ops[..i]), ops[i])
  }

  predicate HeardBy(op: Op, device: nat) { op.HeartbeatAt? && op.device == device }

  // NO SILENCE GOES UNSAID. Whenever a recorder is on record as silent, some sweep raised an alarm naming it, and
  // it was not heard from since, whatever the clocks did.
  lemma {:induction false} SilenceWasSaid(start: Fleet, ops: seq<Op>, device: nat) returns (i: nat)
    requires start.rows == map[] && DistinctIds(start.devices) && PossibleThroughout(start, ops)
    requires StoredState(Run(start, ops).rows, device) == Silent
    ensures i < |ops| && Says(Run(start, ops[..i]), ops[i], device)
    ensures forall j :: i < j < |ops| ==> !HeardBy(ops[j], device)
  {
    hide Says, Apply, Possible, PossibleThroughout, DistinctIds, HeardBy, StoredState;
    NobodySilentAtFirst(start, device);
    var n := |ops| - 1;
    var before := Run(start, ops[..n]);
    PossibleBefore(start, ops);
    if StoredState(before.rows, device) == Silent && !HeardBy(ops[n], device) {
      i := SilenceWasSaid(start, ops[..n], device);
      assert ops[..n][..i] == ops[..i];
    } else {
      i := n;
      StaysDistinct(start, ops[..n]);
      SilentBySweep(before, ops[n], device);
    }
  }

  lemma NobodySilentAtFirst(f: Fleet, device: nat)
    requires f.rows == map[]
    ensures StoredState(Run(f, []).rows, device) != Silent
  {
  }

  lemma PossibleBefore(f: Fleet, ops: seq<Op>)
    requires PossibleThroughout(f, ops) && ops != []
    ensures PossibleThroughout(f, ops[..|ops| - 1]) && Possible(Run(f, ops[..|ops| - 1]), ops[|ops| - 1])
  {
    hide Possible, Apply;
    var n := |ops| - 1;
    assert forall j :: 0 <= j < n ==> ops[..n][..j] == ops[..j];
  }

  lemma SilentBySweep(f: Fleet, op: Op, device: nat)
    requires DistinctIds(f.devices) && StoredState(Apply(f, op).rows, device) == Silent
    requires StoredState(f.rows, device) == Silent ==> HeardBy(op, device)
    ensures Says(f, op, device)
  {
    hide Says, Sweep;
    match op
    case SweepAt(moment, written) => NewSilenceIsSaid(f, moment, written, device);
    case _ =>
  }

  lemma {:induction false} StaysDistinct(f: Fleet, ops: seq<Op>)
    requires DistinctIds(f.devices) && PossibleThroughout(f, ops)
    ensures DistinctIds(Run(f, ops).devices)
  {
    hide Sweep, PossibleThroughout;
    if ops != [] {
      var n := |ops| - 1;
      PossibleBefore(f, ops);
      StaysDistinct(f, ops[..n]);
      if ops[n].SweepAt? { SweepKeepsDevices(Run(f, ops[..n]), ops[n].moment, ops[n].written); }
    }
  }
}
