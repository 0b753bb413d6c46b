// What a quiet fleet means: one alarm at the right level, said once.
module SilenceSweep {
  import opened Options
  import opened Watchdog

  // What the sweep knows about one recorder.
  datatype Snapshot = Snapshot(
    device: nat, site: nat, tenant: nat, name: string, last: Option<int>,
    stored: SilenceState, interval: int, timezone: string)

  datatype AlarmKind = DeviceSilent | SiteOffline

  datatype Alarm = Alarm(
    kind: AlarmKind, site: nat, tenant: nat, device: Option<nat>, name: Option<string>,
    silentFor: Option<int>, securityRelevant: bool, devices: seq<nat>)

  // A recorder with its verdict at the moment of the sweep.
  datatype Judged = Judged(snap: Snapshot, verdict: Verdict)

  datatype SweepPlan = SweepPlan(alarms: seq<Alarm>, changes: map<nat, SilenceState>, recovered: seq<nat>)

  // The moment of a sweep, and whether a timezone is in its night then.
  datatype Moment = Moment(now: int, isNight: string -> bool)

  function Judge(s: Snapshot, at: Moment): Judged {
    Judged(s, EvaluateSilence(s.last, at.now, s.interval, at.isNight(s.timezone)))
  }

  predicate IsSilent(j: Judged) { j.verdict.state == Silent }

  predicate WasNotSilent(j: Judged) { j.snap.stored != Silent }

  predicate IsNewlySilent(j: Judged) { IsSilent(j) && WasNotSilent(j) }

  predicate IsRecovered(j: Judged) { j.verdict.state == Ok && j.snap.stored in {Silent, Late} }

  function Keep(js: seq<Judged>, p: Judged -> bool): (r: seq<Judged>)
    ensures forall j :: j in r <==> j in js && p(j)
    ensures |r| <= |js|
  {
    if js == [] then []
    else
      var rest := Keep(js[..|js| - 1], p);
      var last := js[|js| - 1];
      assert js == js[..|js| - 1] + [last];
      if p(last) then rest + [last] else rest
  }

  function Devices(js: seq<Judged>): (r: seq<nat>)
    ensures |r| == |js| && forall i :: 0 <= i < |js| ==> r[i] == js[i].snap.device
  {
    seq(|js|, i requires 0 <= i < |js| => js[i].snap.device)
  }

  // max(..., default=None) over the silences that are not zero.
  function Longest(js: seq<Judged>): Option<int> {
    if js == [] then None
    else
      var rest := Longest(js[..|js| - 1]);
      match js[|js| - 1].verdict.silentFor
      case None => rest
      case Some(d) => if d == 0 then rest else if rest.Some? && rest.value >= d then rest else Some(d)
  }

  predicate AnySecurityRelevant(js: seq<Judged>) {
    exists i :: 0 <= i < |js| && js[i].verdict.securityRelevant
  }

  // At least two recorders, and three quarters of them silent.
  predicate SiteWide(silent: nat, total: nat) {
    total >= 2 && 4 * silent >= 3 * total
  }

  function SiteAlarm(site: nat, js: seq<Judged>): Alarm
    requires js != []
  {
    var silent := Keep(js, IsSilent);
    Alarm(SiteOffline, site, js[0].snap.tenant, None, None, Longest(silent), AnySecurityRelevant(silent), Devices(silent))
  }

  function DeviceAlarm(site: nat, tenant: nat, j: Judged): Alarm {
    Alarm(DeviceSilent, site, tenant, Some(j.snap.device), Some(j.snap.name), j.verdict.silentFor,
          j.verdict.securityRelevant, [j.snap.device])
  }

  function DeviceAlarms(site: nat, tenant: nat, js: seq<Judged>): (r: seq<Alarm>)
    ensures |r| == |js| && forall i :: 0 <= i < |js| ==> r[i] == DeviceAlarm(site, tenant, js[i])
  {
    seq(|js|, i requires 0 <= i < |js| => DeviceAlarm(site, tenant, js[i]))
  }

  // The alarms one site raises.
  function SiteAlarms(site: nat, js: seq<Judged>): seq<Alarm> {
    var newly := Keep(js, IsNewlySilent);
    if newly == [] then []
    else if SiteWide(|Keep(js, IsSilent)|, |js|) then [SiteAlarm(site, js)]
    else DeviceAlarms(site, js[0].snap.tenant, newly)
  }

  function Changes(js: seq<Judged>): map<nat, SilenceState> {
    if js == [] then map[]
    else
      var rest := Changes(js[..|js| - 1]);
      var last := js[|js| - 1];
      if last.verdict.state != last.snap.stored then rest[last.snap.device := last.verdict.state] else rest
  }

  function Recovered(js: seq<Judged>): seq<nat> {
    if js == [] then []
    else
      var rest := Recovered(js[..|js| - 1]);
      var last := js[|js| - 1];
      if IsRecovered(last) then rest + [last.snap.device] else rest
  }

  lemma NoteOne(js: seq<Judged>, i: nat)
    requires i < |js|
    ensures Changes(js[..i + 1]) == (if js[i].verdict.state != js[i].snap.stored
                                     then Changes(js[..i])[js[i].snap.device := js[i].verdict.state]
                                     else Changes(js[..i]))
    ensures Recovered(js[..i + 1]) == Recovered(js[..i]) + (if IsRecovered(js[i]) then [js[i].snap.device] else [])
  {
    assert js[..i + 1][..i] == js[..i];
  }

  function PlanSite(site: nat, js: seq<Judged>, plan: SweepPlan): SweepPlan {
    SweepPlan(plan.alarms + SiteAlarms(site, js), plan.changes + Changes(js), plan.recovered + Recovered(js))
  }

  // The recorders of one site, in fleet order.
  function OfSite(snaps: seq<Snapshot>, site: nat): (r: seq<Snapshot>)
    ensures forall s :: s in r <==> s in snaps && s.site == site
  {
    if snaps == [] then []
    else
      var rest := OfSite(snaps[..|snaps| - 1], site);
      var last := snaps[|snaps| - 1];
      assert snaps == snaps[..|snaps| - 1] + [last];
      if last.site == site then rest + [last] else rest
  }

  // The sites in order of first appearance.
  function Sites(snaps: seq<Snapshot>): (r: seq<nat>)
    ensures forall x :: x in r <==> exists s :: s in snaps && s.site == x
    ensures forall i, j :: 0 <= i < j < |r| ==> r[i] != r[j]
  {
    if snaps == [] then []
    else
      var rest := Sites(snaps[..|snaps| - 1]);
      var last := snaps[|snaps| - 1];
      assert snaps == snaps[..|snaps| - 1] + [last];
      if last.site in rest then rest else rest + [last.site]
  }

  function JudgeAll(snaps: seq<Snapshot>, at: Moment): (r: seq<Judged>)
    ensures |r| == |snaps| && forall i :: 0 <= i < |r| ==> r[i] == Judge(snaps[i], at)
  {
    seq(|snaps|, i requires 0 <= i < |snaps| => Judge(snaps[i], at))
  }

  // One site's recorders with their verdicts.
  function GroupOf(snaps: seq<Snapshot>, site: nat, at: Moment): seq<Judged> {
    JudgeAll(OfSite(snaps, site), at)
  }

  const NOTHING: SweepPlan := SweepPlan([], map[], [])

  function PlanSites(sites: seq<nat>, snaps: seq<Snapshot>, at: Moment): SweepPlan {
    if sites == [] then NOTHING
    else
      var n := |sites| - 1;
      PlanSite(sites[n], GroupOf(snaps, sites[n], at), PlanSites(sites[..n], snaps, at))
  }

  function PlanSweep(snaps: seq<Snapshot>, at: Moment): SweepPlan {
    PlanSites(Sites(snaps), snaps, at)
  }

  // ---- The sweep as written: lists and dicts filled in loops ---------------------------------------

  class SweepResult {
    var alarms: seq<Alarm>
    var changes: map<nat, SilenceState>
    var recovered: seq<nat>

    constructor ()
      ensures Plan() == NOTHING
    {
      alarms, changes, recovered := [], map[], [];
    }

    function Plan(): SweepPlan
      reads this
    {
      SweepPlan(alarms, changes, recovered)
    }

    method AddSite(site: nat, js: seq<Judged>)
      modifies this
      ensures Plan() == PlanSite(site, js, old(Plan()))
    {
      hide Keep, Recovered, Changes, IsSilent, IsNewlySilent, DeviceAlarms;
      NoteStates(js);
      var silent := Keep(js, IsSilent);
      var newly := Keep(silent, WasNotSilent);
      KeepTwice(js);
      if newly == [] {
        return;
      }
      if SiteWide(|silent|, |js|) {
        alarms := alarms + [SiteAlarm(site, js)];
        return;
      }
      AddDeviceAlarms(site, js[0].snap.tenant, newly);
    }

    method AddDeviceAlarms(site: nat, tenant: nat, newly: seq<Judged>)
      modifies this`alarms
      ensures alarms == old(alarms) + DeviceAlarms(site, tenant, newly)
    {
      ghost var all := DeviceAlarms(site, tenant, newly);
      for i := 0 to |newly|
        invariant alarms == old(alarms) + all[..i]
      {
        alarms := alarms + [DeviceAlarm(site, tenant, newly[i])];
        assert all[..i + 1] == all[..i] + [all[i]];
      }
      assert all[..|newly|] == all;
    }

    method NoteStates(js: seq<Judged>)
      modifies this`changes, this`recovered
      ensures changes == old(changes) + Changes(js)
      ensures recovered == old(recovered) + Recovered(js)
    {
      hide Changes, Recovered, IsRecovered;
      NoneNoted();
      for i := 0 to |js|
        invariant changes == old(changes) + Changes(js[..i])
        invariant recovered == old(recovered) + Recovered(js[..i])
      {
        NoteOne(js, i);
        var j := js[i];
        if j.verdict.state != j.snap.stored {
          changes := changes[j.snap.device := j.verdict.state];
        }
        if IsRecovered(j) {
          recovered := recovered + [j.snap.device];
        }
      }
      assert js[..|js|] == js;
    }
  }

  lemma NoneNoted()
    ensures Changes([]) == map[] && Recovered([]) == []
  {
  }

  lemma {:induction false} KeepTwice(js: seq<Judged>)
    ensures Keep(Keep(js, IsSilent), WasNotSilent) == Keep(js, IsNewlySilent)
  {
    if js != [] {
      var n := |js| - 1;
      KeepTwice(js[..n]);
      var silent := Keep(js[..n], IsSilent);
      if IsSilent(js[n]) {
        assert (silent + [js[n]])[..|silent|] == silent;
      }
    }
  }

  // The whole sweep: recorders grouped by site in order of first appearance, then site by site.
  method SweepFleet(snaps: seq<Snapshot>, at: Moment) returns (result: SweepResult)
    ensures fresh(result) && result.Plan() == PlanSweep(snaps, at)
  {
    hide Sites, OfSite, PlanSite;
    result := new SweepResult();
    var order, bySite := GroupBySite(snaps, at);
    assert order[..0] == [];
    for k := 0 to |order|
      invariant result.Plan() == PlanSites(order[..k], snaps, at)
      invariant fresh(result)
    {
      assert order[..k + 1][..k] == order[..k];
      result.AddSite(order[k], bySite[order[k]]);
    }
    assert order[..|order|] == order;
  }

  method GroupBySite(snaps: seq<Snapshot>, at: Moment) returns (order: seq<nat>, bySite: map<nat, seq<Judged>>)
    ensures order == Sites(snaps)
    ensures forall x :: x in bySite <==> x in order
    ensures forall x :: x in bySite ==> bySite[x] == GroupOf(snaps, x, at)
  {
    hide Sites, GroupOf, Judge;
    order, bySite := [], map[];
    NoSites();
    for i := 0 to |snaps|
      invariant order == Sites(snaps[..i])
      invariant forall x :: x in bySite <==> x in order
      invariant forall x :: x in bySite ==> bySite[x] == GroupOf(snaps[..i], x, at)
    {
      var s := snaps[i];
      GroupOne(snaps, i, at);
      if s.site in bySite {
        bySite := bySite[s.site := bySite[s.site] + [Judge(s, at)]];
      } else {
        order := order + [s.site];
        bySite := bySite[s.site := [Judge(s, at)]];
      }
    }
    assert snaps[..|snaps|] == snaps;
  }

  lemma NoSites()
    ensures Sites([]) == []
  {
  }

  lemma GroupOne(snaps: seq<Snapshot>, i: nat, at: Moment)
    requires i < |snaps|
    ensures var before, after, s := snaps[..i], snaps[..i + 1], snaps[i];
            && Sites(after) == (if s.site in Sites(before) then Sites(before) else Sites(before) + [s.site])
            && GroupOf(after, s.site, at)
               == (if s.site in Sites(before) then GroupOf(before, s.site, at) + [Judge(s, at)] else [Judge(s, at)])
            && forall x :: x != s.site ==> GroupOf(after, x, at) == GroupOf(before, x, at)
  {
    hide Judge;
    var before, after, s := snaps[..i], snaps[..i + 1], snaps[i];
    assert after == before + [s];
    NoneOfNewSite(before, s.site);
    SitesWithOneMore(before, s);
    forall x: nat
      ensures GroupOf(after, x, at) == GroupOf(before, x, at) + (if x == s.site then [Judge(s, at)] else [])
    {
      GroupWithOneMore(before, s, x, at);
    }
    assert OfSite(before, s.site) == [] ==> GroupOf(before, s.site, at) == [];
  }

  lemma SitesWithOneMore(snaps: seq<Snapshot>, s: Snapshot)
    ensures Sites(snaps + [s]) == if s.site in Sites(snaps) then Sites(snaps) else Sites(snaps) + [s.site]
  {
    assert (snaps + [s])[..|snaps|] == snaps;
  }

  lemma GroupWithOneMore(snaps: seq<Snapshot>, s: Snapshot, x: nat, at: Moment)
    ensures GroupOf(snaps + [s], x, at)
         == if x == s.site then GroupOf(snaps, x, at) + [Judge(s, at)] else GroupOf(snaps, x, at)
  {
    hide Judge;
    assert (snaps + [s])[..|snaps|] == snaps;
  }

  lemma NoneOfNewSite(snaps: seq<Snapshot>, site: nat)
    ensures site !in Sites(snaps) ==> OfSite(snaps, site) == []
  {
    var mine := OfSite(snaps, site);
    assert mine != [] ==> mine[0] in mine;
  }

  // ---- Every silence is said exactly once -------------------------------------------------------------

  // How many of the alarms speak for a recorder.
  function Naming(alarms: seq<Alarm>, device: nat): nat {
    if alarms == [] then 0
    else Naming(alarms[..|alarms| - 1], device) + if device in alarms[|alarms| - 1].devices then 1 else 0
  }

  lemma {:induction false} NamingAppend(a: seq<Alarm>, b: seq<Alarm>, device: nat)
    ensures Naming(a + b, device) == Naming(a, device) + Naming(b, device)
  {
    if b == [] {
      assert a + b == a;
    } else {
      assert (a + b)[..|a + b| - 1] == a + b[..|b| - 1];
      NamingAppend(a, b[..|b| - 1], device);
    }
  }

  ghost predicate DistinctDevices(snaps: seq<Snapshot>) {
    forall i, j :: 0 <= i < j < |snaps| ==> snaps[i].device != snaps[j].device
  }

  predicate NewlySilentAt(s: Snapshot, at: Moment) { IsNewlySilent(Judge(s, at)) }

  ghost predicate DistinctJudged(js: seq<Judged>) {
    forall a, b :: a in js && b in js && a.snap.device == b.snap.device ==> a == b
  }

  ghost predicate NoRepeats(js: seq<Judged>) {
    forall i, j :: 0 <= i < j < |js| ==> js[i] != js[j]
  }

  lemma {:induction false} KeepNoRepeats(js: seq<Judged>, p: Judged -> bool)
    requires NoRepeats(js)
    ensures NoRepeats(Keep(js, p))
  {
    if js != [] {
      var n := |js| - 1;
      KeepNoRepeats(js[..n], p);
      assert js[n] !in js[..n];
    }
  }

  // One alarm per listed recorder: each is named by its own alarm only.
  lemma {:induction false} NamingDeviceAlarms(site: nat, tenant: nat, js: seq<Judged>, j: Judged)
    requires NoRepeats(js) && DistinctJudged(js + [j])
    ensures Naming(DeviceAlarms(site, tenant, js), j.snap.device) == if j in js then 1 else 0
  {
    if js != [] {
      var n := |js| - 1;
      var all := DeviceAlarms(site, tenant, js);
      assert all[..n] == DeviceAlarms(site, tenant, js[..n]);
      assert forall x :: x in js[..n] + [j] ==> x in js + [j];
      assert js[n] in js + [j] && j in js + [j];
      assert js == js[..n] + [js[n]];
      NamingDeviceAlarms(site, tenant, js[..n], j);
      assert js[n] !in js[..n];
    }
  }

  lemma NamingOne(a: Alarm, device: nat)
    ensures Naming([a], device) == if device in a.devices then 1 else 0
  {
    assert [a][..0] == [];
  }

  // Within its own site, a newly silent recorder is named exactly once.
  lemma NamedByOwnSite(site: nat, js: seq<Judged>, j: Judged)
    requires NoRepeats(js) && DistinctJudged(js) && j in js && IsNewlySilent(j)
    ensures Naming(SiteAlarms(site, js), j.snap.device) == 1
  {
    hide IsSilent, WasNotSilent, SiteWide, Longest;
    var newly, silent := Keep(js, IsNewlySilent), Keep(js, IsSilent);
    assert j in newly && j in silent;
    if SiteWide(|silent|, |js|) {
      var k :| 0 <= k < |silent| && silent[k] == j;
      assert Devices(silent)[k] == j.snap.device;
      NamingOne(SiteAlarm(site, js), j.snap.device);
    } else {
      KeepNoRepeats(js, IsNewlySilent);
      assert forall x :: x in newly + [j] ==> x in js;
      NamingDeviceAlarms(site, js[0].snap.tenant, newly, j);
    }
  }

  // An alarm of a site names recorders of that site only.
  ghost predicate NamesOnly(a: Alarm, js: seq<Judged>) {
    forall d :: d in a.devices ==> exists j :: j in js && j.snap.device == d && IsSilent(j)
  }

  lemma SiteAlarmsNameOwn(site: nat, js: seq<Judged>, i: nat)
    requires i < |SiteAlarms(site, js)|
    ensures NamesOnly(SiteAlarms(site, js)[i], js) && SiteAlarms(site, js)[i].site == site
    ensures var a := SiteAlarms(site, js)[i]; a.kind == DeviceSilent ==> a.device.Some? && a.devices == [a.device.value]
    ensures exists j :: j in js && IsNewlySilent(j) && j.snap.device in SiteAlarms(site, js)[i].devices
  {
    hide WasNotSilent, SiteWide, Longest;
    var newly, silent := Keep(js, IsNewlySilent), Keep(js, IsSilent);
    var a := SiteAlarms(site, js)[i];
    assert newly[0] in newly;
    if SiteWide(|silent|, |js|) {
      var ds := Devices(silent);
      assert forall k :: 0 <= k < |ds| ==> silent[k] in silent && ds[k] == silent[k].snap.device;
      var k :| 0 <= k < |silent| && silent[k] == newly[0];
      assert ds[k] in ds;
    } else {
      assert newly[i] in newly && a.devices == [newly[i].snap.device];
    }
  }

  lemma {:induction false} NotNamed(alarms: seq<Alarm>, device: nat)
    requires forall i :: 0 <= i < |alarms| ==> device !in alarms[i].devices
    ensures Naming(alarms, device) == 0
  {
    if alarms != [] { NotNamed(alarms[..|alarms| - 1], device); }
  }

  lemma {:induction false} SomeAlarmNames(alarms: seq<Alarm>, device: nat) returns (k: nat)
    requires Naming(alarms, device) > 0
    ensures k < |alarms| && device in alarms[k].devices
  {
    var n := |alarms| - 1;
    if device in alarms[n].devices {
      k := n;
    } else {
      k := SomeAlarmNames(alarms[..n], device);
    }
  }

  lemma JudgedOf(snaps: seq<Snapshot>, site: nat, at: Moment)
    ensures forall j :: j in GroupOf(snaps, site, at) <==> j.snap in snaps && j.snap.site == site && j == Judge(j.snap, at)
  {
    var mine, js := OfSite(snaps, site), GroupOf(snaps, site, at);
    assert forall k :: 0 <= k < |js| ==> js[k] == Judge(mine[k], at) && mine[k] in mine;
    forall s | s in mine
      ensures Judge(s, at) in js
    {
      var k :| 0 <= k < |mine| && mine[k] == s;
      assert js[k] == Judge(s, at);
    }
  }

  lemma {:induction false} OfSiteNoRepeats(snaps: seq<Snapshot>, site: nat)
    requires DistinctDevices(snaps)
    ensures DistinctDevices(OfSite(snaps, site))
  {
    if snaps != [] {
      var n := |snaps| - 1;
      OfSiteNoRepeats(snaps[..n], site);
      var rest := OfSite(snaps[..n], site);
      assert forall k :: 0 <= k < |rest| ==> rest[k] in rest && rest[k] in snaps[..n];
    }
  }

  lemma GroupIsDistinct(snaps: seq<Snapshot>, site: nat, at: Moment)
    requires DistinctDevices(snaps)
    ensures NoRepeats(GroupOf(snaps, site, at)) && DistinctJudged(GroupOf(snaps, site, at))
  {
    OfSiteNoRepeats(snaps, site);
    JudgedOf(snaps, site, at);
    SameDeviceSameSnapshot(snaps);
  }

  lemma SameDeviceSameSnapshot(snaps: seq<Snapshot>)
    requires DistinctDevices(snaps)
    ensures forall a, b :: a in snaps && b in snaps && a.device == b.device ==> a == b
  {
  }

  lemma NotNamedElsewhere(snaps: seq<Snapshot>, site: nat, at: Moment, s: Snapshot)
    requires DistinctDevices(snaps) && s in snaps && s.site != site
    ensures Naming(SiteAlarms(site, GroupOf(snaps, site, at)), s.device) == 0
  {
    hide SiteAlarms, GroupOf;
    var js := GroupOf(snaps, site, at);
    var alarms := SiteAlarms(site, js);
    JudgedOf(snaps, site, at);
    SameDeviceSameSnapshot(snaps);
    forall i | 0 <= i < |alarms|
      ensures s.device !in alarms[i].devices
    {
      SiteAlarmsNameOwn(site, js, i);
    }
    NotNamed(alarms, s.device);
  }

  lemma {:induction false} NamedBySites(sites: seq<nat>, snaps: seq<Snapshot>, at: Moment, s: Snapshot)
    requires DistinctDevices(snaps) && s in snaps && NewlySilentAt(s, at)
    requires forall i, j :: 0 <= i < j < |sites| ==> sites[i] != sites[j]
    ensures Naming(PlanSites(sites, snaps, at).alarms, s.device) == if s.site in sites then 1 else 0
  {
    hide Naming, SiteAlarms, GroupOf, Changes, Recovered, DistinctDevices, NewlySilentAt;
    if sites == [] {
      NotNamed([], s.device);
    } else {
      var n := |sites| - 1;
      NamedBySites(sites[..n], snaps, at, s);
      assert sites == sites[..n] + [sites[n]];
      var js := GroupOf(snaps, sites[n], at);
      NamingAppend(PlanSites(sites[..n], snaps, at).alarms, SiteAlarms(sites[n], js), s.device);
      if sites[n] == s.site {
        assert s.site !in sites[..n];
        GroupIsDistinct(snaps, s.site, at);
        JudgedOf(snaps, s.site, at);
        InOwnGroup(snaps, at, s);
        NamedByOwnSite(s.site, js, Judge(s, at));
      } else {
        NotNamedElsewhere(snaps, sites[n], at, s);
      }
    }
  }

  lemma InOwnGroup(snaps: seq<Snapshot>, at: Moment, s: Snapshot)
    requires s in snaps
    ensures Judge(s, at) in GroupOf(snaps, s.site, at)
    ensures NewlySilentAt(s, at) ==> IsNewlySilent(Judge(s, at))
  {
    JudgedOf(snaps, s.site, at);
  }

  // SAID ONCE. Each newly silent recorder is named by exactly one alarm of the sweep.
  lemma NamedExactlyOnce(snaps: seq<Snapshot>, at: Moment, s: Snapshot)
    requires DistinctDevices(snaps) && s in snaps && NewlySilentAt(s, at)
    ensures Naming(PlanSweep(snaps, at).alarms, s.device) == 1
  {
    hide NewlySilentAt, DistinctDevices, PlanSites, Naming;
    NamedBySites(Sites(snaps), snaps, at, s);
  }

  // The alarm speaks for silent recorders of its own site only, and for a newly silent one.
  ghost predicate HasCause(a: Alarm, snaps: seq<Snapshot>, at: Moment) {
    && (exists s :: s in snaps && s.site == a.site && NewlySilentAt(s, at) && s.device in a.devices)
    && (forall d :: d in a.devices ==> exists s :: s in snaps && s.site == a.site && s.device == d && IsSilent(Judge(s, at)))
    && (a.kind == DeviceSilent ==> a.device.Some? && a.devices == [a.device.value])
  }

  lemma {:induction false} CausedBySites(sites: seq<nat>, snaps: seq<Snapshot>, at: Moment)
    ensures forall a :: a in PlanSites(sites, snaps, at).alarms ==> HasCause(a, snaps, at)
  {
    hide SiteAlarms, GroupOf, Changes, Recovered, HasCause;
    if sites != [] {
      var n := |sites| - 1;
      CausedBySites(sites[..n], snaps, at);
      var own := SiteAlarms(sites[n], GroupOf(snaps, sites[n], at));
      forall i | 0 <= i < |own|
        ensures HasCause(own[i], snaps, at)
      {
        CauseOf(snaps, sites[n], at, i);
      }
    }
  }

  lemma CauseOf(snaps: seq<Snapshot>, site: nat, at: Moment, i: nat)
    requires i < |SiteAlarms(site, GroupOf(snaps, site, at))|
    ensures HasCause(SiteAlarms(site, GroupOf(snaps, site, at))[i], snaps, at)
  {
    hide SiteAlarms, GroupOf, IsSilent, WasNotSilent;
    var js := GroupOf(snaps, site, at);
    JudgedOf(snaps, site, at);
    SiteAlarmsNameOwn(site, js, i);
    var a := SiteAlarms(site, js)[i];
    var j :| j in js && IsNewlySilent(j) && j.snap.device in a.devices;
    assert NewlySilentAt(j.snap, at);
    forall d | d in a.devices
      ensures exists s :: s in snaps && s.site == a.site && s.device == d && IsSilent(Judge(s, at))
    {
      var k :| k in js && k.snap.device == d && IsSilent(k);
      assert k.snap in snaps && IsSilent(Judge(k.snap, at));
    }
  }

  // NO ALARM WITHOUT A CAUSE.
  lemma EveryAlarmHasCause(snaps: seq<Snapshot>, at: Moment)
    ensures forall a :: a in PlanSweep(snaps, at).alarms ==> HasCause(a, snaps, at)
  {
    hide HasCause, PlanSites;
    CausedBySites(Sites(snaps), snaps, at);
  }

  // ---- Sites do not affect each other ------------------------------------------------------------------

  function AlarmsAt(alarms: seq<Alarm>, site: nat): seq<Alarm> {
    if alarms == [] then []
    else
      var rest := AlarmsAt(alarms[..|alarms| - 1], site);
      var last := alarms[|alarms| - 1];
      if last.site == site then rest + [last] else rest
  }

  lemma {:induction false} AlarmsAtAppend(a: seq<Alarm>, b: seq<Alarm>, site: nat)
    ensures AlarmsAt(a + b, site) == AlarmsAt(a, site) + AlarmsAt(b, site)
  {
    if b == [] {
      assert a + b == a;
    } else {
      assert (a + b)[..|a + b| - 1] == a + b[..|b| - 1];
      AlarmsAtAppend(a, b[..|b| - 1], site);
    }
  }

  lemma {:induction false} AlarmsAtAll(alarms: seq<Alarm>, from: nat, site: nat)
    requires forall i :: 0 <= i < |alarms| ==> alarms[i].site == from
    ensures AlarmsAt(alarms, site) == if site == from then alarms else []
  {
    if alarms != [] { AlarmsAtAll(alarms[..|alarms| - 1], from, site); }
  }

  lemma {:induction false} AlarmsOfSites(sites: seq<nat>, snaps: seq<Snapshot>, at: Moment, site: nat)
    requires forall i, j :: 0 <= i < j < |sites| ==> sites[i] != sites[j]
    ensures AlarmsAt(PlanSites(sites, snaps, at).alarms, site)
         == if site in sites then SiteAlarms(site, GroupOf(snaps, site, at)) else []
  {
    hide AlarmsAt, SiteAlarms, GroupOf, Changes, Recovered;
    if sites == [] {
      AlarmsAtAll([], site, site);
    } else {
      var n := |sites| - 1;
      AlarmsOfSites(sites[..n], snaps, at, site);
      assert sites == sites[..n] + [sites[n]];
      var own := SiteAlarms(sites[n], GroupOf(snaps, sites[n], at));
      AlarmsAtAppend(PlanSites(sites[..n], snaps, at).alarms, own, site);
      forall i | 0 <= i < |own|
        ensures own[i].site == sites[n]
      {
        SiteAlarmsNameOwn(sites[n], GroupOf(snaps, sites[n], at), i);
      }
      AlarmsAtAll(own, sites[n], site);
      assert site == sites[n] ==> site !in sites[..n];
    }
  }

  // SITE INDEPENDENCE. A site's alarms are those of a sweep over its recorders alone.
  lemma SiteIndependence(snaps: seq<Snapshot>, at: Moment, site: nat)
    ensures AlarmsAt(PlanSweep(snaps, at).alarms, site) == PlanSweep(OfSite(snaps, site), at).alarms
  {
    hide SiteAlarms, AlarmsAt, PlanSites, JudgeAll;
    var mine := OfSite(snaps, site);
    AlarmsOfSites(Sites(snaps), snaps, at, site);
    SitesOfOne(snaps, site);
    OfSiteTwice(snaps, site);
    if site in Sites(snaps) {
      OneSitePlan(site, mine, at);
    } else {
      NoSitePlan(mine, at);
    }
  }

  lemma OneSitePlan(site: nat, snaps: seq<Snapshot>, at: Moment)
    ensures PlanSites([site], snaps, at).alarms == SiteAlarms(site, GroupOf(snaps, site, at))
  {
    hide SiteAlarms, GroupOf, Changes, Recovered;
    assert [site][..0] == [];
  }

  lemma NoSitePlan(snaps: seq<Snapshot>, at: Moment)
    ensures PlanSites([], snaps, at).alarms == []
  {
  }

  lemma {:induction false} OfSiteTwice(snaps: seq<Snapshot>, site: nat)
    ensures OfSite(OfSite(snaps, site), site) == OfSite(snaps, site)
  {
    if snaps != [] {
      var n := |snaps| - 1;
      OfSiteTwice(snaps[..n], site);
      var rest := OfSite(snaps[..n], site);
      if snaps[n].site == site { assert (rest + [snaps[n]])[..|rest|] == rest; }
    }
  }

  lemma {:induction false} SitesOfOne(snaps: seq<Snapshot>, site: nat)
    ensures Sites(OfSite(snaps, site)) == if site in Sites(snaps) then [site] else []
  {
    if snaps != [] {
      var n := |snaps| - 1;
      var rest := OfSite(snaps[..n], site);
      SitesOfOne(snaps[..n], site);
      assert (rest + [snaps[n]])[..|rest|] == rest;
    }
  }

  // ---- State changes -------------------------------------------------------------------------------------

  predicate IsChanged(j: Judged) { j.verdict.state != j.snap.stored }

  lemma {:induction false} ChangesOfGroup(js: seq<Judged>, device: nat)
    requires DistinctJudged(js)
    ensures (forall j :: j in js ==> j.snap.device != device) ==> device !in Changes(js)
    ensures forall j :: j in js && j.snap.device == device ==>
              (device in Changes(js) <==> IsChanged(j)) && (IsChanged(j) ==> Changes(js)[device] == j.verdict.state)
  {
    if js != [] {
      var n := |js| - 1;
      assert js == js[..n] + [js[n]];
      ChangesOfGroup(js[..n], device);
    }
  }

  lemma {:induction false} ChangesOfSites(sites: seq<nat>, snaps: seq<Snapshot>, at: Moment, s: Snapshot)
    requires DistinctDevices(snaps) && s in snaps
    ensures var changes := PlanSites(sites, snaps, at).changes;
            && (s.device in changes <==> s.site in sites && IsChanged(Judge(s, at)))
            && (s.device in changes ==> changes[s.device] == Judge(s, at).verdict.state)
  {
    hide SiteAlarms, GroupOf, Changes, Recovered, DistinctDevices, Judge, IsChanged;
    if sites != [] {
      var n := |sites| - 1;
      ChangesOfSites(sites[..n], snaps, at, s);
      assert sites == sites[..n] + [sites[n]];
      var js := GroupOf(snaps, sites[n], at);
      GroupIsDistinct(snaps, sites[n], at);
      ChangesOfGroup(js, s.device);
      JudgedOf(snaps, sites[n], at);
      SameDeviceSameSnapshot(snaps);
      assert sites[n] == s.site ==> Judge(s, at) in js by { InOwnGroup(snaps, at, s); }
      JudgeKeepsSnapshot(s, at);
    }
  }

  lemma JudgeKeepsSnapshot(s: Snapshot, at: Moment)
    ensures Judge(s, at).snap == s
  {
  }

  // A recorder's stored state is rewritten exactly when the verdict differs from it.
  lemma ChangesAreExact(snaps: seq<Snapshot>, at: Moment, s: Snapshot)
    requires DistinctDevices(snaps) && s in snaps
    ensures var changes := PlanSweep(snaps, at).changes;
            && (s.device in changes <==> IsChanged(Judge(s, at)))
            && (s.device in changes ==> changes[s.device] == Judge(s, at).verdict.state)
  {
    hide PlanSites, DistinctDevices, Judge, IsChanged;
    ChangesOfSites(Sites(snaps), snaps, at, s);
  }

  // Only recorders of the fleet change state.
  lemma ChangesOnlyFleet(snaps: seq<Snapshot>, at: Moment, device: nat)
    requires forall s :: s in snaps ==> s.device != device
    ensures device !in PlanSweep(snaps, at).changes
  {
    NoChangeAtSites(Sites(snaps), snaps, at, device);
  }

  lemma {:induction false} NoChangeAtSites(sites: seq<nat>, snaps: seq<Snapshot>, at: Moment, device: nat)
    requires forall s :: s in snaps ==> s.device != device
    ensures device !in PlanSites(sites, snaps, at).changes
  {
    hide SiteAlarms, GroupOf, Recovered, Judge;
    if sites != [] {
      var n := |sites| - 1;
      NoChangeAtSites(sites[..n], snaps, at, device);
      JudgedOf(snaps, sites[n], at);
      NoChangeOutside(GroupOf(snaps, sites[n], at), device);
    }
  }

  lemma {:induction false} NoChangeOutside(js: seq<Judged>, device: nat)
    requires forall j :: j in js ==> j.snap.device != device
    ensures device !in Changes(js)
  {
    if js != [] {
      assert js == js[..|js| - 1] + [js[|js| - 1]];
      NoChangeOutside(js[..|js| - 1], device);
    }
  }

  // Exactly the recorders that came back are reported recovered.
  lemma RecoveredExactly(snaps: seq<Snapshot>, at: Moment, device: nat)
    ensures device in PlanSweep(snaps, at).recovered
       <==> exists s :: s in snaps && s.device == device && IsRecovered(Judge(s, at))
  {
    hide PlanSites, Judge, IsRecovered;
    RecoveredOfSites(Sites(snaps), snaps, at, device);
  }

  lemma {:induction false} RecoveredOfSites(sites: seq<nat>, snaps: seq<Snapshot>, at: Moment, device: nat)
    ensures device in PlanSites(sites, snaps, at).recovered
       <==> exists s :: s in snaps && s.site in sites && s.device == device && IsRecovered(Judge(s, at))
  {
    hide SiteAlarms, GroupOf, Changes, Recovered, Judge, IsRecovered;
    if sites != [] {
      var n := |sites| - 1;
      RecoveredOfSites(sites[..n], snaps, at, device);
      assert sites == sites[..n] + [sites[n]];
      var js := GroupOf(snaps, sites[n], at);
      RecoveredOfGroup(js, device);
      JudgedOf(snaps, sites[n], at);
      forall s | s in snaps
        ensures Judge(s, at).snap == s
        ensures s.site == sites[n] ==> Judge(s, at) in js
      {
        JudgeKeepsSnapshot(s, at);
        if s.site == sites[n] { InOwnGroup(snaps, at, s); }
      }
    }
  }

  lemma {:induction false} RecoveredOfGroup(js: seq<Judged>, device: nat)
    ensures device in Recovered(js) <==> exists j :: j in js && j.snap.device == device && IsRecovered(j)
  {
    hide IsRecovered;
    if js != [] {
      var n := |js| - 1;
      assert js == js[..n] + [js[n]];
      RecoveredOfGroup(js[..n], device);
    }
  }

  predicate HasBeenQuiet(j: Judged) { j.verdict.silentFor.Some? && j.verdict.silentFor.value != 0 }

  // A site alarm tells how long its longest-silent recorder has been quiet, if any has.
  lemma {:induction false} LongestIsLongest(js: seq<Judged>)
    ensures Longest(js).Some? <==> exists j :: j in js && HasBeenQuiet(j)
    ensures Longest(js).Some? ==> exists j :: j in js && HasBeenQuiet(j) && j.verdict.silentFor == Longest(js)
    ensures forall j :: j in js && HasBeenQuiet(j) ==> j.verdict.silentFor.value <= Longest(js).value
  {
    if js != [] {
      var n := |js| - 1;
      assert js == js[..n] + [js[n]];
      LongestIsLongest(js[..n]);
      assert js[n] in js;
    }
  }
}
