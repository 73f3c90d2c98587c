/**
 * `MonitoringPage` in `ui.py`: the dashboard of one target device, with the per-device record
 * of the fastest link speed seen and the downgrade warning derived from it.
 */
module Monitoring {
  import opened Wrappers
  import opened Text
  import opened Utils
  import opened Core
  import opened Chart

  function Max(a: int, b: int): int {
    if a < b then b else a
  }

  /**
   * The outcome of one health check: the new history, whether `save_callback` runs, whether
   * the link counts as downgraded, and the maximum it was compared with.
   */
  datatype Observation = Observation(history: map<string, int>, saved: bool, downgraded: bool, knownMax: int)

  /** The health check for a numeric reading `v` of device `id`. */
  function ObserveReading(history: map<string, int>, id: string, v: int): (o: Observation)
    ensures id in o.history && o.knownMax == o.history[id]
    ensures o.knownMax == (if id in history then Max(history[id], v) else v)
    ensures o.history == history[id := o.knownMax]
  {
    if id !in history || v > history[id] then Observation(history[id := v], true, false, v)
    else Observation(history, false, v < history[id], history[id])
  }

  /** The health check for a raw speed; text `int()` rejects changes nothing. */
  function Observe(history: map<string, int>, id: string, speed: string): (o: Observation)
    ensures ParseInt(speed).None? ==> o.history == history && !o.saved && !o.downgraded
  {
    match ParseInt(speed)
    case None => Observation(history, false, false, 0)
    case Some(v) => ObserveReading(history, id, v)
  }

  /** A first reading is stored as the maximum, saved, and never reported as a downgrade. */
  lemma ObserveUnseen(history: map<string, int>, id: string, v: int)
    requires id !in history
    ensures ObserveReading(history, id, v).history == history[id := v]
    ensures ObserveReading(history, id, v).saved && !ObserveReading(history, id, v).downgraded
  {
  }

  /**
   * The stored maxima never decrease, other devices' entries are untouched, and a device's
   * entry changes, and is saved, exactly when the reading is strictly greater.
   */
  lemma ObserveMaxNeverDecreases(history: map<string, int>, id: string, v: int)
    ensures forall k :: k in history ==> k in ObserveReading(history, id, v).history
                                         && history[k] <= ObserveReading(history, id, v).history[k]
    ensures forall k :: k in ObserveReading(history, id, v).history && k != id ==>
              k in history && ObserveReading(history, id, v).history[k] == history[k]
    ensures id in history ==> (ObserveReading(history, id, v).history[id] != history[id] <==> v > history[id])
    ensures ObserveReading(history, id, v).saved <==> id !in history || v > history[id]
  {
  }

  /** A reading is a downgrade exactly when it is below the maximum recorded before it. */
  lemma DowngradeIffBelowMax(history: map<string, int>, id: string, v: int)
    ensures ObserveReading(history, id, v).downgraded <==> v < ObserveReading(history, id, v).knownMax
    ensures ObserveReading(history, id, v).downgraded <==> id in history && v < history[id]
  {
  }

  /** The largest of a non-empty run of readings. */
  function MaxOf(vs: seq<int>): (m: int)
    requires |vs| > 0
    ensures m in vs && forall i :: 0 <= i < |vs| ==> vs[i] <= m
  {
    if |vs| == 1 then vs[0] else Max(vs[0], MaxOf(vs[1..]))
  }

  /** The history after a run of readings of one device. */
  function ObserveAll(history: map<string, int>, id: string, vs: seq<int>): map<string, int>
    decreases |vs|
  {
    if vs == [] then history else ObserveAll(ObserveReading(history, id, vs[0]).history, id, vs[1..])
  }

  /** After a run of readings, the stored value is the largest of them and of what was stored. */
  lemma {:induction false} ObserveAllKeepsRunningMax(history: map<string, int>, id: string, vs: seq<int>)
    requires |vs| > 0
    ensures id in ObserveAll(history, id, vs)
    ensures ObserveAll(history, id, vs)[id] == (if id in history then Max(history[id], MaxOf(vs)) else MaxOf(vs))
    decreases |vs|
  {
    var next := ObserveReading(history, id, vs[0]).history;
    if |vs| > 1 {
      ObserveAllKeepsRunningMax(next, id, vs[1..]);
    }
  }

  /**
   * A new reading is a downgrade exactly when it is below the fastest of all earlier readings,
   * not merely below the previous one.
   */
  lemma DowngradeAgainstHistoricalMax(id: string, vs: seq<int>, v: int)
    requires |vs| > 0
    ensures ObserveReading(ObserveAll(map[], id, vs), id, v).downgraded <==> v < MaxOf(vs)
  {
    ObserveAllKeepsRunningMax(map[], id, vs);
  }

  /** 100 then 50 is a downgrade; 80 next still is, though faster than 50; 200 is not and becomes the maximum. */
  lemma DowngradeScenario(id: string)
    ensures !ObserveReading(map[], id, 100).downgraded
    ensures ObserveReading(ObserveAll(map[], id, [100]), id, 50).downgraded
    ensures ObserveReading(ObserveAll(map[], id, [100, 50]), id, 80).downgraded
    ensures !ObserveReading(ObserveAll(map[], id, [100, 50, 80]), id, 200).downgraded
    ensures id in ObserveAll(map[], id, [100, 50, 80, 200]) && ObserveAll(map[], id, [100, 50, 80, 200])[id] == 200
  {
    DowngradeAgainstHistoricalMax(id, [100], 50);
    DowngradeAgainstHistoricalMax(id, [100, 50], 80);
    DowngradeAgainstHistoricalMax(id, [100, 50, 80], 200);
    ObserveAllKeepsRunningMax(map[], id, [100, 50, 80, 200]);
  }

  // ---------------------------------------------------------------------------------------
  // Downgrade message
  // ---------------------------------------------------------------------------------------

  /** The sentence naming the fastest speed on record. */
  function HistoryText(knownMax: int): string {
    "We have previously observed this device on your system connect at "
      + FormatSpeed(IntToString(knownMax)).0 + " (" + FormatSpeed(IntToString(knownMax)).1 + ")."
  }

  /** A reading of USB 2.0 speed or slower on a device seen at SuperSpeed or faster. */
  predicate IsLegacyCase(current: int, knownMax: int) {
    current <= 480 && knownMax >= 5000
  }

  /** The opening of the tooltip shown in the legacy case. */
  const LegacyOpening := "Running at legacy USB 2.0 speeds. "

  /** A tooltip that uses the legacy wording. */
  predicate HasLegacyWording(message: string) {
    LegacyOpening <= message
  }

  /** The tooltip of the downgrade warning; every wording ends with the history sentence. */
  function DowngradeMessage(speedText: string, current: int, knownMax: int): (m: string)
    ensures |m| >= |HistoryText(knownMax)| && m[|m| - |HistoryText(knownMax)|..] == HistoryText(knownMax)
  {
    if IsLegacyCase(current, knownMax) then LegacyOpening + HistoryText(knownMax)
    else "Running at " + speedText + " but " + HistoryText(knownMax)
  }

  /** The maximum is rendered through the integer branches of `format_speed`. */
  lemma HistoryTextUsesMbps(knownMax: int)
    ensures FormatSpeed(IntToString(knownMax)) == FormatMbps(knownMax)
  {
    var t := IntToString(knownMax);
    ParseIntOfIntToString(knownMax);
    IntToStringStart(knownMax);
    assert t != "N/A" by {
      assert "N/A"[0] == 'N';
    }
  }

  /** The text of a numeric speed never starts with 'l'. */
  lemma FormatMbpsStart(n: int)
    ensures |FormatMbps(n).0| > 0 && FormatMbps(n).0[0] != 'l'
  {
    if n !in StandardRates {
      FormatMbpsStandard(n);
      if n >= 1000 {
        IntToStringStart(n / 1000);
      } else {
        IntToStringStart(n);
      }
    }
  }

  /** The text shown for a numeric speed never starts with 'l'. */
  lemma SpeedTextStart(speed: string)
    requires ParseInt(speed).Some?
    ensures |FormatSpeed(speed).0| > 0 && FormatSpeed(speed).0[0] != 'l'
  {
    EmptyAndNotAvailableAreNotNumbers();
    FormatMbpsStart(ParseInt(speed).value);
  }

  /** The legacy wording is chosen exactly in the legacy case. */
  lemma LegacyMessageIff(speedText: string, current: int, knownMax: int)
    requires |speedText| > 0 && speedText[0] != 'l'
    ensures HasLegacyWording(DowngradeMessage(speedText, current, knownMax)) <==> IsLegacyCase(current, knownMax)
  {
    if IsLegacyCase(current, knownMax) {
      LegacyWording(speedText, current, knownMax);
    } else {
      OtherWording(speedText, current, knownMax);
    }
  }

  /** A legacy reading against a SuperSpeed maximum gets the legacy wording. */
  lemma LegacyWording(speedText: string, current: int, knownMax: int)
    requires IsLegacyCase(current, knownMax)
    ensures HasLegacyWording(DowngradeMessage(speedText, current, knownMax))
  {
    var h := HistoryText(knownMax);
    assert DowngradeMessage(speedText, current, knownMax) == LegacyOpening + h;
  }

  /** Any other reading names its own speed instead. */
  lemma OtherWording(speedText: string, current: int, knownMax: int)
    requires |speedText| > 0 && speedText[0] != 'l'
    requires !IsLegacyCase(current, knownMax)
    ensures !HasLegacyWording(DowngradeMessage(speedText, current, knownMax))
  {
    NotLegacyWording(speedText, " but " + HistoryText(knownMax));
    assert DowngradeMessage(speedText, current, knownMax) == "Running at " + speedText + (" but " + HistoryText(knownMax));
  }

  /** A speed text not starting with 'l' cannot be mistaken for the legacy wording. */
  lemma NotLegacyWording(speedText: string, rest: string)
    requires |speedText| > 0 && speedText[0] != 'l'
    ensures !HasLegacyWording("Running at " + speedText + rest)
  {
    var m := "Running at " + speedText + rest;
    assert m[11] == speedText[0];
  }

  // ---------------------------------------------------------------------------------------
  // The page
  // ---------------------------------------------------------------------------------------

  /** The health banner: hidden, or revealed with its tooltip. */
  datatype Health = Healthy | LinkDowngraded(tooltip: string)

  /** What the dashboard shows after `update_view`. */
  datatype Dashboard =
    | Waiting
    | Live(speedText: string, speedCaption: string, health: Health, versionLabel: string,
           serialText: string, busText: string, power: string)

  /** The banner for an observation of `speed`. */
  function HealthOf(speed: string, o: Observation): (h: Health)
    ensures h.LinkDowngraded? ==> o.downgraded
  {
    match ParseInt(speed)
    case None => Healthy
    case Some(v) =>
      if o.downgraded then LinkDowngraded(DowngradeMessage(FormatSpeed(speed).0, v, o.knownMax)) else Healthy
  }

  /**
   * The panel of a connected device after the health check `o`: neither the speed nor its
   * caption is ever blank, and a numeric reading is always shown with its unit.
   */
  function ConnectedView(device: UsbDevice, o: Observation): (v: Dashboard)
    ensures v.Live? && |v.speedText| > 0 && v.speedCaption != ""
    ensures ParseInt(device.speed).Some? ==> HasUnit(v.speedText)
    ensures v.health.LinkDowngraded? ==> o.downgraded
  {
    var caption := FormatSpeed(device.speed).1;
    Live(
      FormatSpeed(device.speed).0,
      if caption != "" then caption else "Negotiated Link Speed",
      HealthOf(device.speed, o),
      UsbVersionLabel(device.version),
      if Truthy(device.serial) then device.serial.value else "N/A",
      "Bus " + device.busNum + " | Addr " + device.devNum + " | Path " + device.sysName,
      device.maxPower)
  }

  /** The banner is shown exactly for a numeric reading below the recorded maximum. */
  lemma BannerIffBelowMax(history: map<string, int>, device: UsbDevice)
    ensures ConnectedView(device, Observe(history, StableId(device), device.speed)).health.LinkDowngraded?
            <==> ParseInt(device.speed).Some? && StableId(device) in history
                 && ParseInt(device.speed).value < history[StableId(device)]
  {
    if ParseInt(device.speed).Some? {
      DowngradeIffBelowMax(history, StableId(device), ParseInt(device.speed).value);
    }
  }

  /**
   * The page: the capability history (shared with the main window), the target's identity,
   * the tier chart, and a count of `save_callback` calls.
   */
  class MonitoringPage {
    var historyCache: map<string, int>
    var currentTargetId: Option<string>
    const chart: UsbVersionChart
    ghost var saves: nat

    ghost predicate Valid()
      reads this, chart
    {
      chart.Valid()
    }

    constructor (history: map<string, int>)
      ensures Valid() && fresh(chart) && chart.active == {}
      ensures historyCache == history && currentTargetId == None && saves == 0
    {
      historyCache := history;
      currentTargetId := None;
      chart := new UsbVersionChart();
      saves := 0;
    }

    /** `update_view`: run the health check and refresh the panel, or show the waiting state. */
    method UpdateView(device: UsbDevice, connected: bool) returns (view: Dashboard)
      requires Valid()
      modifies this, chart
      ensures Valid()
      ensures currentTargetId == old(currentTargetId)
      ensures !connected ==> view == Waiting && unchanged(this, chart)
      ensures connected ==>
        var o := Observe(old(historyCache), StableId(device), device.speed);
        && historyCache == o.history
        && saves == old(saves) + (if o.saved then 1 else 0)
        && chart.active == Lit(ChooseTier(device.speed))
        && view == ConnectedView(device, o)
    {
      if !connected {
        view := Waiting;
        return;
      }
      var health := CheckHealth(device);
      chart.SetActiveSpeed(device.speed);
      var speedText := FormatSpeed(device.speed).0;
      var speedLabel := FormatSpeed(device.speed).1;
      view := Live(
        speedText,
        if speedLabel != "" then speedLabel else "Negotiated Link Speed",
        health,
        UsbVersionLabel(device.version),
        if Truthy(device.serial) then device.serial.value else "N/A",
        "Bus " + device.busNum + " | Addr " + device.devNum + " | Path " + device.sysName,
        device.maxPower);
    }

    /** The link health check of `update_view`: record a new maximum, then compare against it. */
    method CheckHealth(device: UsbDevice) returns (health: Health)
      modifies this
      ensures currentTargetId == old(currentTargetId)
      ensures
        var o := Observe(old(historyCache), StableId(device), device.speed);
        && historyCache == o.history
        && saves == old(saves) + (if o.saved then 1 else 0)
        && health == HealthOf(device.speed, o)
    {
      var speedText := FormatSpeed(device.speed).0;
      var id := StableId(device);
      health := Healthy;
      match ParseInt(device.speed) {
        case None =>
        case Some(current) =>
          var knownMax := RecordReading(id, current);
          if current < knownMax {
            health := LinkDowngraded(DowngradeMessage(speedText, current, knownMax));
          }
      }
    }

    /** The history update of the health check: store a first or a faster reading, and save. */
    method RecordReading(id: string, current: int) returns (knownMax: int)
      modifies this
      ensures
        var o := ObserveReading(old(historyCache), id, current);
        && historyCache == o.history
        && saves == old(saves) + (if o.saved then 1 else 0)
        && knownMax == o.knownMax
        && (o.downgraded <==> current < knownMax)
      ensures unchanged(this`currentTargetId)
    {
      if id !in historyCache {
        historyCache := historyCache[id := current];
        saves := saves + 1;
      } else if current > historyCache[id] {
        historyCache := historyCache[id := current];
        saves := saves + 1;
      }
      knownMax := historyCache[id];
    }

    /** `set_target`: remember the target's identity, show its name, and refresh as connected. */
    method SetTarget(device: UsbDevice) returns (title: string, subtitle: string, view: Dashboard)
      requires Valid()
      modifies this, chart
      ensures Valid()
      ensures currentTargetId == Some(StableId(device))
      ensures title == FriendlyName(device) && subtitle == device.vendor + " (" + device.vid + ":" + device.pid + ")"
      ensures
        var o := Observe(old(historyCache), StableId(device), device.speed);
        && historyCache == o.history
        && saves == old(saves) + (if o.saved then 1 else 0)
        && chart.active == Lit(ChooseTier(device.speed))
        && view == ConnectedView(device, o)
    {
      currentTargetId := Some(StableId(device));
      title := FriendlyName(device);
      subtitle := device.vendor + " (" + device.vid + ":" + device.pid + ")";
      view := UpdateView(device, true);
    }

    /** `on_stop_clicked`: forget the target; the main window then returns to the selection page. */
    method OnStopClicked()
      modifies this
      ensures currentTargetId == None
      ensures historyCache == old(historyCache) && saves == old(saves)
    {
      currentTargetId := None;
    }
  }
}
