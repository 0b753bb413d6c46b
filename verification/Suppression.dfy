// Symptoms already explained by a bigger outage.
module Suppression {
  import opened Options

  datatype Level = Channel | DeviceWide | SiteWide

  // Each of these can be the signature of the incident itself.
  const NEVER_SUPPRESSED: set<string> := {
    "person_detected", "vehicle_detected", "line_crossing", "zone_intrusion", "video_tampering", "device_silent",
    "site_offline"}

  function LevelFor(eventType: string): Level {
    match eventType
    case "site_offline" => SiteWide
    case "device_silent" => DeviceWide
    case "device_offline" => DeviceWide
    case "storage_not_exist" => DeviceWide
    case "storage_failure" => DeviceWide
    case "storage_low_space" => DeviceWide
    case _ => Channel
  }

  function Rank(l: Level): nat { match l case Channel => 1 case DeviceWide => 2 case SiteWide => 3 }

  // What is known to be down.
  datatype Outages = Outages(sites: set<nat>, devices: set<nat>)

  datatype Verdict = Verdict(suppressed: bool, coveredBy: Option<Level>)

  function ShouldSuppress(eventType: string, site: nat, device: nat, outages: Outages): (v: Verdict)
    ensures v.suppressed <==> v.coveredBy.Some?
  {
    if eventType in NEVER_SUPPRESSED then Verdict(false, None)
    else
      var level := LevelFor(eventType);
      if site in outages.sites && Rank(level) < Rank(SiteWide) then Verdict(true, Some(SiteWide))
      else if device in outages.devices && Rank(level) < Rank(DeviceWide) then Verdict(true, Some(DeviceWide))
      else Verdict(false, None)
  }

  class OutageState {
    var offlineSites: set<nat>
    var silentDevices: set<nat>

    constructor ()
      ensures Known() == Outages({}, {})
    {
      offlineSites, silentDevices := {}, {};
    }

    function Known(): Outages
      reads this
    {
      Outages(offlineSites, silentDevices)
    }

    method MarkSiteOffline(site: nat)
      modifies this`offlineSites
      ensures offlineSites == old(offlineSites) + {site}
    {
      offlineSites := offlineSites + {site};
    }

    method MarkSiteOnline(site: nat)
      modifies this`offlineSites
      ensures offlineSites == old(offlineSites) - {site}
    {
      offlineSites := offlineSites - {site};
    }

    method MarkDeviceSilent(device: nat)
      modifies this`silentDevices
      ensures silentDevices == old(silentDevices) + {device}
    {
      silentDevices := silentDevices + {device};
    }

    method MarkDeviceHealthy(device: nat)
      modifies this`silentDevices
      ensures silentDevices == old(silentDevices) - {device}
    {
      silentDevices := silentDevices - {device};
    }
  }

  // SUPPRESSION HIDES NO INCIDENT, and hides anything else exactly when something larger is down: the whole site, or
  // the recorder while the symptom is not about the recorder itself. The site covers it first.
  lemma SuppressedExactly(eventType: string, site: nat, device: nat, outages: Outages)
    ensures var v := ShouldSuppress(eventType, site, device, outages);
            var incident := eventType in {"person_detected", "vehicle_detected", "line_crossing", "zone_intrusion",
                                          "video_tampering", "device_silent", "site_offline"};
            var ofRecorder := eventType in {"device_offline", "storage_not_exist", "storage_failure", "storage_low_space"};
            && (v.suppressed <==> !incident && (site in outages.sites || (device in outages.devices && !ofRecorder)))
            && (v.suppressed ==> v.coveredBy == Some(if site in outages.sites then SiteWide else DeviceWide))
  {
  }

  // Knowing of more outages never brings a suppressed symptom back, and the wider cause is named first.
  lemma MoreOutagesSuppressMore(eventType: string, site: nat, device: nat, few: Outages, many: Outages)
    requires few.sites <= many.sites && few.devices <= many.devices
    requires ShouldSuppress(eventType, site, device, few).suppressed
    ensures var before, after := ShouldSuppress(eventType, site, device, few), ShouldSuppress(eventType, site, device, many);
            after.suppressed && Rank(before.coveredBy.value) <= Rank(after.coveredBy.value)
  {
  }
}
