// What a sweep raises, said of the recorders' rows alone.
module SilenceMeaning {
  import opened Clock
  import opened Options
  import opened Watchdog
  import opened SilenceSweep
  import opened FleetWatch

  // The rows that satisfy p, in fleet order.
  function Pick(snaps: seq<Snapshot>, p: Snapshot -> bool): (r: seq<Snapshot>)
    ensures forall s :: s in r <==> s in snaps && p(s)
  {
    if snaps == [] then []
    else
      var rest, last := Pick(snaps[..|snaps| - 1], p), snaps[|snaps| - 1];
      assert snaps == snaps[..|snaps| - 1] + [last];
      if p(last) then rest + [last] else rest
  }

  // Heard once, and not for one and a half intervals (nor for one, should the interval be negative).
  predicate Dark(s: Snapshot, now: int) {
    s.last.Some? && now - s.last.value >= s.interval * SECOND && 2 * (now - s.last.value) >= 3 * s.interval * SECOND
  }

  function AtSite(site: nat): Snapshot -> bool { (s: Snapshot) => s.site == site }

  function DarkAt(site: nat, now: int): Snapshot -> bool { (s: Snapshot) => s.site == site && Dark(s, now) }

  function NewlyDarkAt(site: nat, now: int): Snapshot -> bool {
    (s: Snapshot) => s.site == site && Dark(s, now) && s.stored != Silent
  }

  lemma {:induction false} OfSiteIsPick(snaps: seq<Snapshot>, site: nat)
    ensures OfSite(snaps, site) == Pick(snaps, AtSite(site))
  {
    if snaps != [] { OfSiteIsPick(snaps[..|snaps| - 1], site); }
  }

  lemma {:induction false} KeepIsPick(snaps: seq<Snapshot>, site: nat, at: Moment, p: Judged -> bool, q: Snapshot -> bool)
    requires forall s :: q(s) <==> s.site == site && p(Judge(s, at))
    ensures Keep(GroupOf(snaps, site, at), p) == JudgeAll(Pick(snaps, q), at)
  {
    hide Judge, GroupOf;
    if snaps == [] {
      NobodyThere(site, at, p);
    } else {
      var n := |snaps| - 1;
      KeepIsPick(snaps[..n], site, at, p, q);
      assert snaps == snaps[..n] + [snaps[n]];
      GroupWithOneMore(snaps[..n], snaps[n], site, at);
      KeepOneMore(GroupOf(snaps[..n], site, at), Judge(snaps[n], at), p);
    }
  }

  lemma NobodyThere(site: nat, at: Moment, p: Judged -> bool)
    ensures Keep(GroupOf([], site, at), p) == []
  {
  }

  lemma KeepOneMore(js: seq<Judged>, j: Judged, p: Judged -> bool)
    ensures Keep(js + [j], p) == if p(j) then Keep(js, p) + [j] else Keep(js, p)
  {
    assert (js + [j])[..|js|] == js;
  }

  lemma DarkIsSilent(s: Snapshot, at: Moment)
    ensures IsSilent(Judge(s, at)) <==> Dark(s, at.now)
    ensures Dark(s, at.now) ==>
              Judge(s, at) == Judged(s, Verdict(Silent, Some(QuietTime(s, at.now)), at.isNight(s.timezone)))
  {
  }

  // How long a recorder has been quiet; nothing has been heard from one that never was.
  function QuietTime(s: Snapshot, now: int): int {
    match s.last
    case Some(heard) => now - heard
    case None => 0
  }

  // The longest of the silences that are not zero.
  ghost predicate LongestQuiet(longest: Option<int>, silent: seq<Snapshot>, now: int) {
    && (longest.Some? <==> exists s :: s in silent && QuietTime(s, now) != 0)
    && (longest.Some? ==> exists s :: s in silent && QuietTime(s, now) == longest.value)
    && (longest.Some? ==> forall s :: s in silent && QuietTime(s, now) != 0 ==> QuietTime(s, now) <= longest.value)
  }

  lemma LongestOfSilent(silent: seq<Snapshot>, at: Moment)
    requires forall s :: s in silent ==> Dark(s, at.now)
    ensures LongestQuiet(Longest(JudgeAll(silent, at)), silent, at.now)
  {
    hide Judge, Longest, Dark;
    var js := JudgeAll(silent, at);
    LongestIsLongest(js);
    forall s | s in silent
      ensures Judge(s, at) in js && Judge(s, at).verdict.silentFor == Some(QuietTime(s, at.now))
    {
      DarkIsSilent(s, at);
      var k :| 0 <= k < |silent| && silent[k] == s;
      assert js[k] == Judge(s, at);
    }
    forall j | j in js
      ensures j.snap in silent && j == Judge(j.snap, at)
    {
      var k :| 0 <= k < |js| && js[k] == j;
      JudgeKeepsSnapshot(silent[k], at);
    }
  }

  // One alarm for the whole site: it names every silent recorder, and matters for security if one of them went
  // silent in its night.
  ghost predicate IsSiteAlarm(a: Alarm, site: nat, tenant: nat, silent: seq<Snapshot>, at: Moment) {
    && a.kind == SiteOffline && a.site == site && a.tenant == tenant && a.device.None? && a.name.None?
    && |a.devices| == |silent| && (forall i :: 0 <= i < |silent| ==> a.devices[i] == silent[i].device)
    && (a.securityRelevant <==> exists s :: s in silent && at.isNight(s.timezone))
    && LongestQuiet(a.silentFor, silent, at.now)
  }

  predicate IsDeviceAlarm(a: Alarm, site: nat, tenant: nat, s: Snapshot, at: Moment) {
    a == Alarm(DeviceSilent, site, tenant, Some(s.device), Some(s.name), Some(QuietTime(s, at.now)),
               at.isNight(s.timezone), [s.device])
  }

  // At least two recorders, three quarters of them silent: one alarm. Otherwise one for each newly silent one.
  ghost predicate RaisesExactly(alarms: seq<Alarm>, site: nat, all: seq<Snapshot>, silent: seq<Snapshot>,
                                newly: seq<Snapshot>, at: Moment)
  {
    if newly == [] then alarms == []
    else if |all| >= 2 && 4 * |silent| >= 3 * |all| then
      |alarms| == 1 && IsSiteAlarm(alarms[0], site, all[0].tenant, silent, at)
    else
      |alarms| == |newly| && all != []
      && forall i :: 0 <= i < |newly| ==> IsDeviceAlarm(alarms[i], site, all[0].tenant, newly[i], at)
  }

  lemma SiteAlarmMeans(site: nat, js: seq<Judged>, all: seq<Snapshot>, silent: seq<Snapshot>, at: Moment)
    requires js == JudgeAll(all, at) && all != [] && Keep(js, IsSilent) == JudgeAll(silent, at)
    requires forall s :: s in silent ==> Dark(s, at.now)
    ensures IsSiteAlarm(SiteAlarm(site, js), site, all[0].tenant, silent, at)
  {
    hide Judge, Longest, Dark, LongestQuiet, Keep;
    LongestOfSilent(silent, at);
    JudgeKeepsSnapshot(all[0], at);
    var ks := JudgeAll(silent, at);
    forall i | 0 <= i < |silent|
      ensures ks[i].snap == silent[i]
      ensures ks[i].verdict.securityRelevant == at.isNight(silent[i].timezone)
    {
      assert silent[i] in silent;
      DarkIsSilent(silent[i], at);
    }
  }

  lemma DeviceAlarmMeans(site: nat, tenant: nat, newly: seq<Snapshot>, at: Moment, i: nat)
    requires i < |newly| && forall s :: s in newly ==> Dark(s, at.now)
    ensures IsDeviceAlarm(DeviceAlarms(site, tenant, JudgeAll(newly, at))[i], site, tenant, newly[i], at)
  {
    hide Judge, Dark;
    assert newly[i] in newly;
    DarkIsSilent(newly[i], at);
  }

  // WHAT A SITE RAISES, exactly. Without a newly silent recorder, nothing. With one: a single alarm for the whole site
  // if and only if it has at least two recorders and three quarters of them are silent, and otherwise one alarm
  // for each newly silent recorder, in fleet order.
  lemma WhatASiteRaises(snaps: seq<Snapshot>, at: Moment, site: nat)
    ensures RaisesExactly(AlarmsAt(PlanSweep(snaps, at).alarms, site), site, Pick(snaps, AtSite(site)),
                          Pick(snaps, DarkAt(site, at.now)), Pick(snaps, NewlyDarkAt(site, at.now)), at)
  {
    hide Pick, Keep, PlanSweep, AlarmsAt, JudgeAll, Judge, IsSiteAlarm, IsDeviceAlarm, DeviceAlarms, Dark;
    var all, silent := Pick(snaps, AtSite(site)), Pick(snaps, DarkAt(site, at.now));
    var newly, js := Pick(snaps, NewlyDarkAt(site, at.now)), GroupOf(snaps, site, at);
    OwnAlarms(snaps, at, site);
    OfSiteIsPick(snaps, site);
    PickedKinds(snaps, at, site);
    if newly != [] {
      assert newly[0] in newly && newly[0] in all;
      if |all| >= 2 && 4 * |silent| >= 3 * |all| {
        SiteAlarmMeans(site, js, all, silent, at);
      } else {
        JudgeKeepsSnapshot(all[0], at);
        forall i | 0 <= i < |newly|
          ensures IsDeviceAlarm(SiteAlarms(site, js)[i], site, all[0].tenant, newly[i], at)
        {
          DeviceAlarmMeans(site, all[0].tenant, newly, at, i);
        }
      }
    }
  }

  lemma PickedKinds(snaps: seq<Snapshot>, at: Moment, site: nat)
    ensures Keep(GroupOf(snaps, site, at), IsSilent) == JudgeAll(Pick(snaps, DarkAt(site, at.now)), at)
    ensures Keep(GroupOf(snaps, site, at), IsNewlySilent) == JudgeAll(Pick(snaps, NewlyDarkAt(site, at.now)), at)
  {
    hide Keep, Pick, GroupOf, Judge, Dark;
    forall s: Snapshot
      ensures (IsSilent(Judge(s, at)) <==> Dark(s, at.now)) && Judge(s, at).snap == s
    {
      DarkIsSilent(s, at);
      JudgeKeepsSnapshot(s, at);
    }
    KeepIsPick(snaps, site, at, IsSilent, DarkAt(site, at.now));
    KeepIsPick(snaps, site, at, IsNewlySilent, NewlyDarkAt(site, at.now));
  }

  lemma OwnAlarms(snaps: seq<Snapshot>, at: Moment, site: nat)
    ensures AlarmsAt(PlanSweep(snaps, at).alarms, site) == SiteAlarms(site, GroupOf(snaps, site, at))
  {
    hide SiteAlarms, AlarmsAt, PlanSites, JudgeAll;
    AlarmsOfSites(Sites(snaps), snaps, at, site);
    if site !in Sites(snaps) {
      NoneOfNewSite(snaps, site);
      NothingToRaise(site, at);
    }
  }

  lemma NothingToRaise(site: nat, at: Moment)
    ensures SiteAlarms(site, JudgeAll([], at)) == []
  {
  }

  // ---- States ------------------------------------------------------------------------------------------

  // The state a recorder's row is left with, by how long it has been quiet.
  lemma StateFollowsQuiet(snaps: seq<Snapshot>, at: Moment, s: Snapshot)
    requires DistinctDevices(snaps) && s in snaps
    ensures var changes := PlanSweep(snaps, at).changes;
            (if s.device in changes then changes[s.device] else s.stored)
            == if s.last.None? then NeverSeen
               else if at.now - s.last.value < s.interval * SECOND then Ok
               else if 2 * (at.now - s.last.value) < 3 * s.interval * SECOND then Late
               else Silent
  {
    hide PlanSweep, DistinctDevices;
    ChangesAreExact(snaps, at, s);
  }

  // Recovered is who is heard again within its interval and was on record as late or silent.
  lemma RecoveredByBeat(snaps: seq<Snapshot>, at: Moment, device: nat)
    ensures device in PlanSweep(snaps, at).recovered
       <==> exists s :: s in snaps && s.device == device && (s.stored == Silent || s.stored == Late)
                        && s.last.Some? && at.now - s.last.value < s.interval * SECOND
  {
    hide PlanSweep;
    RecoveredExactly(snaps, at, device);
  }

  // A HEARTBEAT IS HEARD. It moves the recorder's row and no other; the row says Ok and when it came. A sweep
  // within the interval leaves the recorder Ok and names it in no alarm.
  lemma HeartbeatIsHeard(f: Fleet, device: nat, beat: int, at: Moment, written: int)
    requires DistinctIds(f.devices)
    ensures var g := FleetWatch.Apply(f, HeartbeatAt(device, beat));
            && g.devices == f.devices && g.alarms == f.alarms && g.rows.Keys == f.rows.Keys + {device}
            && (forall d :: d in f.rows && d != device ==> g.rows[d] == f.rows[d])
            && g.rows[device].state == Ok && g.rows[device].last == Some(beat)
            && g.rows[device].interval == (if device in f.rows then f.rows[device].interval else 1800)
            && g.rows[device].changedAt
               == (if device in f.rows && f.rows[device].state == Ok then f.rows[device].changedAt else Some(beat))
            && (at.now - beat < g.rows[device].interval * SECOND ==>
                  && StoredState(Sweep(g, at, written).rows, device) == Ok
                  && forall a :: a in PlanSweep(Snapshots(g.devices, g.rows), at).alarms ==> device !in a.devices)
  {
    hide PlanSweep, Sweep, HasCause;
    var g := FleetWatch.Apply(f, HeartbeatAt(device, beat));
    if at.now - beat < g.rows[device].interval * SECOND {
      StaysOk(g, device, beat, at, written);
      NotSilentNotNamed(g, device, beat, at);
    }
  }

  lemma StaysOk(g: Fleet, device: nat, beat: int, at: Moment, written: int)
    requires DistinctIds(g.devices) && device in g.rows && g.rows[device].state == Ok
    requires g.rows[device].last == Some(beat) && at.now - beat < g.rows[device].interval * SECOND
    ensures StoredState(Sweep(g, at, written).rows, device) == Ok
  {
    hide Sweep;
    if StoredState(Sweep(g, at, written).rows, device) != Ok {
      var i := ChangedIsEnrolled(g, at, written, device);
      SweepStoresVerdicts(g, at, written, i);
    }
  }

  lemma NotSilentNotNamed(g: Fleet, device: nat, beat: int, at: Moment)
    requires device in g.rows && g.rows[device].last == Some(beat)
    requires at.now - beat < g.rows[device].interval * SECOND
    ensures forall a :: a in PlanSweep(Snapshots(g.devices, g.rows), at).alarms ==> device !in a.devices
  {
    hide PlanSweep;
    var snaps := Snapshots(g.devices, g.rows);
    EveryAlarmHasCause(snaps, at);
    forall a | a in PlanSweep(snaps, at).alarms
      ensures device !in a.devices
    {
      assert HasCause(a, snaps, at);
    }
  }

  // A SWEEP REWRITES a row only where the state by quiet time differs from the one on record, and then stamps it; a
  // recorder without a row was never seen and gets none.
  lemma SweepRewrites(f: Fleet, at: Moment, written: int, i: nat)
    requires DistinctIds(f.devices) && i < |f.devices|
    ensures var d, after := f.devices[i].id, Sweep(f, at, written);
            && after.devices == f.devices && after.alarms == f.alarms + PlanSweep(Snapshots(f.devices, f.rows), at).alarms
            && (d !in f.rows ==> d !in after.rows)
            && (d in f.rows ==>
                  var row := f.rows[d];
                  var state := if row.last.None? then NeverSeen
                               else if at.now - row.last.value < row.interval * SECOND then Ok
                               else if 2 * (at.now - row.last.value) < 3 * row.interval * SECOND then Late
                               else Silent;
                  d in after.rows && after.rows[d] == if state == row.state then row
                                                      else row.(state := state, changedAt := Some(written)))
  {
    hide PlanSweep, Judge;
    var snaps := Snapshots(f.devices, f.rows);
    assert snaps[i] in snaps;
    ChangesAreExact(snaps, at, snaps[i]);
    JudgedState(f.devices[i], f.rows, at);
    JudgeKeepsSnapshot(snaps[i], at);
  }
}
