/**
 * `MainWindow` in `ui.py`: the selection page listing connected devices, the monitoring page,
 * and the handler that records every device event and routes it to the visible page.
 */
module Window {
  import opened Wrappers
  import opened Text
  import opened Utils
  import opened Core
  import opened Chart
  import opened Monitoring
  import opened Recorder

  /** The visible child of the page stack. */
  datatype Page = Selection | Monitored

  /** What an event makes the visible page do after it is recorded. */
  datatype FollowUp = Refresh | ShowConnected | ShowDisconnected | NoFollowUp

  /**
   * The routing at the end of `handle_device_event`: the selection page re-lists devices on add
   * and remove; the monitoring page refreshes only for its own target, as connected on add, bind
   * and change, as disconnected on remove and unbind.
   */
  function FollowUpFor(visible: Page, targetId: Option<string>, action: Action, id: string): (f: FollowUp)
    ensures f == Refresh <==> visible == Selection && (action == Add || action == Remove)
    ensures f == ShowConnected <==>
              visible == Monitored && targetId == Some(id) && (action == Add || action == Bind || action == Change)
    ensures f == ShowDisconnected <==> visible == Monitored && targetId == Some(id) && IsDetach(action)
  {
    match visible
    case Selection => if action == Add || action == Remove then Refresh else NoFollowUp
    case Monitored =>
      if targetId != Some(id) then NoFollowUp
      else if action == Add || action == Bind || action == Change then ShowConnected
      else if action == Remove || action == Unbind then ShowDisconnected
      else NoFollowUp
  }

  /** A device event for anything but the target never touches the monitoring page. */
  lemma OtherDevicesIgnoredWhileMonitoring(targetId: Option<string>, action: Action, id: string)
    requires targetId != Some(id)
    ensures FollowUpFor(Monitored, targetId, action, id) == NoFollowUp
  {
  }

  /** The left list of `refresh_devices`: connected devices whose identity has a recorded maximum, in order. */
  function PreviouslyMonitored(devices: seq<UsbDevice>, history: map<string, int>): (left: seq<UsbDevice>)
    ensures |left| <= |devices|
    ensures forall d :: d in left ==> d in devices && StableId(d) in history
    ensures forall i :: 0 <= i < |devices| && StableId(devices[i]) in history ==> devices[i] in left
  {
    if devices == [] then []
    else
      var init := PreviouslyMonitored(devices[..|devices| - 1], history);
      var last := devices[|devices| - 1];
      assert forall i :: 0 <= i < |devices| - 1 ==> devices[..|devices| - 1][i] == devices[i];
      if StableId(last) in history then init + [last] else init
  }

  /** Listing one batch of devices after another lists the known ones of each, in the same order. */
  lemma {:induction false} PreviouslyMonitoredAppend(xs: seq<UsbDevice>, ys: seq<UsbDevice>, history: map<string, int>)
    ensures PreviouslyMonitored(xs + ys, history) == PreviouslyMonitored(xs, history) + PreviouslyMonitored(ys, history)
    decreases |ys|
  {
    if ys == [] {
      assert xs + ys == xs;
    } else {
      var init := ys[..|ys| - 1];
      assert (xs + ys)[..|xs + ys| - 1] == xs + init;
      assert (xs + ys)[|xs + ys| - 1] == ys[|ys| - 1];
      PreviouslyMonitoredAppend(xs, init, history);
    }
  }

  /** A single device is on the left exactly when its identity has a recorded maximum. */
  lemma PreviouslyMonitoredSingle(d: UsbDevice, history: map<string, int>)
    ensures PreviouslyMonitored([d], history) == if StableId(d) in history then [d] else []
  {
    assert [d][..0] == [];
  }

  /** The population loop of `refresh_devices`: every device on the right, the known ones on the left. */
  method FillLists(devices: seq<UsbDevice>, history: map<string, int>) returns (all: seq<UsbDevice>, previously: seq<UsbDevice>)
    ensures all == devices
    ensures previously == PreviouslyMonitored(devices, history)
  {
    all := [];
    previously := [];
    for i := 0 to |devices|
      invariant all == devices[..i]
      invariant previously == PreviouslyMonitored(devices[..i], history)
    {
      var dev := devices[i];
      assert devices[..i + 1][..i] == devices[..i];
      all := all + [dev];
      if StableId(dev) in history {
        previously := previously + [dev];
      }
    }
    assert devices[..|devices|] == devices;
  }

  /** The `try: speeds.add(int(speed))` of `handle_device_event`: a reading `int()` rejects adds nothing. */
  method RecordSpeed(speeds: set<int>, speed: string) returns (r: set<int>)
    ensures r == speeds + SpeedSet(speed)
  {
    r := speeds;
    var parsed := ParseInt(speed);
    if parsed.Some? {
      r := r + {parsed.value};
    }
  }

  class MainWindow {
    const manager: DeviceManager
    const page: MonitoringPage
    var registry: map<string, RegistryEntry>
    var eventLog: seq<LogEntry>
    var visible: Page
    /** Calls of `save_history` made by the window itself. */
    ghost var saves: nat

    ghost predicate Valid()
      reads this, manager, page, page.chart
    {
      manager.Valid() && page.Valid()
    }

    /**
     * `__init__` once `load_history` has produced `history`, `log` and `known`: build the
     * manager and both pages, then list the devices of `enumeration`.
     */
    constructor (history: map<string, int>, log: seq<LogEntry>, known: map<string, RegistryEntry>,
                 enumeration: seq<UsbDevice>)
      requires forall i :: 0 <= i < |enumeration| ==> enumeration[i].forcedId == None
      ensures Valid() && fresh(manager) && fresh(page) && fresh(page.chart)
      ensures visible == Selection && registry == known && eventLog == log && saves == 0
      ensures page.historyCache == history && page.currentTargetId == None && page.saves == 0
      ensures manager.syspathMap == IndexPaths(map[], enumeration)
      ensures manager.deviceCache == IndexCache(map[], enumeration)
      ensures manager.dispatched == []
    {
      manager := new DeviceManager();
      page := new MonitoringPage(history);
      registry := known;
      eventLog := log;
      visible := Selection;
      saves := 0;
      new;
      var _, _ := RefreshDevices(enumeration);
    }

    /** `refresh_devices`: list the connected devices, all of them and the previously monitored ones. */
    method RefreshDevices(enumeration: seq<UsbDevice>) returns (all: seq<UsbDevice>, previously: seq<UsbDevice>)
      requires Valid()
      requires forall i :: 0 <= i < |enumeration| ==> enumeration[i].forcedId == None
      modifies manager
      ensures Valid()
      ensures all == enumeration
      ensures previously == PreviouslyMonitored(enumeration, page.historyCache)
      ensures manager.syspathMap == IndexPaths(old(manager.syspathMap), enumeration)
      ensures manager.deviceCache == IndexCache(old(manager.deviceCache), enumeration)
      ensures manager.dispatched == old(manager.dispatched)
    {
      var devices := manager.ListDevices(enumeration);
      all, previously := FillLists(devices, page.historyCache);
    }

    /**
     * `handle_device_event` for the resolved `device` at time `now`: update the registry, append
     * one log entry, save, then let the visible page follow up (`enumeration` is what a
     * re-listing would find).
     */
    method HandleDeviceEvent(action: Action, device: UsbDevice, now: string, enumeration: seq<UsbDevice>)
      returns (follow: FollowUp)
      requires Valid()
      requires forall i :: 0 <= i < |enumeration| ==> enumeration[i].forcedId == None
      modifies this, manager, page, page.chart
      ensures Valid()
      ensures registry == Upsert(old(registry), StableId(device), FriendlyName(device), device.speed, now)
      ensures eventLog == old(eventLog)
                          + [LogEntryFor(action, device, DisplayName(old(registry), StableId(device), FriendlyName(device)), now)]
      ensures saves == old(saves) + 1 && visible == old(visible)
      ensures follow == FollowUpFor(old(visible), old(page.currentTargetId), action, StableId(device))
      ensures page.currentTargetId == old(page.currentTargetId)
      ensures follow == Refresh ==>
                && manager.syspathMap == IndexPaths(old(manager.syspathMap), enumeration)
                && manager.deviceCache == IndexCache(old(manager.deviceCache), enumeration)
                && manager.dispatched == old(manager.dispatched)
                && unchanged(page, page.chart)
      ensures follow == ShowConnected ==>
                var o := Observe(old(page.historyCache), StableId(device), device.speed);
                && page.historyCache == o.history
                && page.saves == old(page.saves) + (if o.saved then 1 else 0)
                && page.chart.active == Lit(ChooseTier(device.speed))
                && unchanged(manager)
      ensures follow == ShowDisconnected || follow == NoFollowUp ==> unchanged(manager, page, page.chart)
    {
      RecordEvent(action, device, now);
      assert unchanged(manager, page, page.chart);
      label recorded:
      follow := RouteEvent(action, device, enumeration);
      assert unchanged@recorded(this);
    }

    /**
     * The second half of `handle_device_event`: the selection page re-lists on add and remove;
     * the monitoring page shows its target as connected or disconnected.
     */
    method RouteEvent(action: Action, device: UsbDevice, enumeration: seq<UsbDevice>) returns (follow: FollowUp)
      requires Valid()
      requires forall i :: 0 <= i < |enumeration| ==> enumeration[i].forcedId == None
      modifies manager, page, page.chart
      ensures Valid()
      ensures follow == FollowUpFor(visible, old(page.currentTargetId), action, StableId(device))
      ensures page.currentTargetId == old(page.currentTargetId)
      ensures follow == Refresh ==>
                && manager.syspathMap == IndexPaths(old(manager.syspathMap), enumeration)
                && manager.deviceCache == IndexCache(old(manager.deviceCache), enumeration)
                && manager.dispatched == old(manager.dispatched)
                && unchanged(page, page.chart)
      ensures follow == ShowConnected ==>
                var o := Observe(old(page.historyCache), StableId(device), device.speed);
                && page.historyCache == o.history
                && page.saves == old(page.saves) + (if o.saved then 1 else 0)
                && page.chart.active == Lit(ChooseTier(device.speed))
                && unchanged(manager)
      ensures follow == ShowDisconnected || follow == NoFollowUp ==> unchanged(manager, page, page.chart)
    {
      var id := StableId(device);
      follow := NoFollowUp;
      if visible == Selection {
        if action == Add || action == Remove {
          follow := Refresh;
          var _, _ := RefreshDevices(enumeration);
        }
      } else {
        if page.currentTargetId == Some(id) {
          if action == Add || action == Bind || action == Change {
            follow := ShowConnected;
            var _ := page.UpdateView(device, true);
          } else if action == Remove || action == Unbind {
            follow := ShowDisconnected;
            var _ := page.UpdateView(device, false);
          }
        }
      }
    }

    /** The first half of `handle_device_event`: upsert the registry, append the log entry, save. */
    method RecordEvent(action: Action, device: UsbDevice, now: string)
      modifies this
      ensures registry == Upsert(old(registry), StableId(device), FriendlyName(device), device.speed, now)
      ensures eventLog == old(eventLog)
                          + [LogEntryFor(action, device, DisplayName(old(registry), StableId(device), FriendlyName(device)), now)]
      ensures saves == old(saves) + 1
      ensures visible == old(visible)
    {
      var shown := UpdateRegistry(StableId(device), FriendlyName(device), device.speed, now);
      AppendLog(action, device, shown, now);
    }

    /** The log half of `handle_device_event`: one entry for the event, shown under `shown`, then a save. */
    method AppendLog(action: Action, device: UsbDevice, shown: string, now: string)
      modifies this
      ensures eventLog == old(eventLog) + [LogEntryFor(action, device, shown, now)]
      ensures saves == old(saves) + 1
      ensures unchanged(this`registry, this`visible)
    {
      var eventType := "Changed";
      if action == Add {
        eventType := "Connected";
      } else if action == Remove {
        eventType := "Disconnected";
      } else if action == Change {
        eventType := "Changed";
      }
      var speedDisplay := FormatSpeed(device.speed).0;
      if action == Remove {
        speedDisplay := "-";
      }
      eventLog := eventLog + [LogEntry(now, eventType, shown, speedDisplay, device.busNum + "-" + device.sysName, device.version)];
      saves := saves + 1;
    }

    /**
     * The registry half of `handle_device_event` for identity `id` and the device's own name
     * `candidate`; returns the name the log entry shows.
     */
    method UpdateRegistry(id: string, candidate: string, speed: string, now: string) returns (shown: string)
      modifies this
      ensures shown == DisplayName(old(registry), id, candidate)
      ensures registry == Upsert(old(registry), id, candidate, speed, now)
      ensures unchanged(this`eventLog, this`saves, this`visible)
    {
      var entry: RegistryEntry;
      shown, entry := RenamedEntry(id, candidate, now);
      var speeds := RecordSpeed(entry.speeds, speed);
      entry := entry.(speeds := speeds);
      registry := registry[id := entry];
    }

    /**
     * The name half of the registry update: the name to show, and the entry for `id` with that
     * name (a placeholder keeps the stored one), its old speeds and `last_seen` set to `now`.
     */
    method RenamedEntry(id: string, candidate: string, now: string) returns (shown: string, entry: RegistryEntry)
      ensures shown == DisplayName(registry, id, candidate)
      ensures entry == RegistryEntry(shown, if id in registry then registry[id].speeds else {}, now)
    {
      shown := candidate;
      var isUnknownName := IsPlaceholder(shown);
      if isUnknownName && id in registry {
        shown := registry[id].name;
      }
      if id !in registry {
        entry := RegistryEntry(shown, {}, now);
      } else {
        entry := registry[id];
        if !isUnknownName {
          entry := entry.(name := shown);
        }
      }
      entry := entry.(lastSeen := now);
    }

    /** `on_monitor_clicked`: monitor the selected row, the left list's selection first. */
    method OnMonitorClicked(leftSelected: Option<UsbDevice>, rightSelected: Option<UsbDevice>)
      requires Valid()
      modifies this, page, page.chart
      ensures Valid()
      ensures leftSelected.None? && rightSelected.None? ==> unchanged(this, page, page.chart)
      ensures leftSelected.Some? || rightSelected.Some? ==>
                var device := if leftSelected.Some? then leftSelected.value else rightSelected.value;
                var o := Observe(old(page.historyCache), StableId(device), device.speed);
                && visible == Monitored && page.currentTargetId == Some(StableId(device))
                && page.historyCache == o.history
                && page.saves == old(page.saves) + (if o.saved then 1 else 0)
                && page.chart.active == Lit(ChooseTier(device.speed))
      ensures unchanged(this`registry, this`eventLog, this`saves)
    {
      if leftSelected.Some? {
        Monitor(leftSelected.value);
      } else if rightSelected.Some? {
        Monitor(rightSelected.value);
      }
    }

    /** The effect of `on_monitor_clicked` with a device row selected: target it and show the monitoring page. */
    method Monitor(device: UsbDevice)
      requires Valid()
      modifies this, page, page.chart
      ensures Valid()
      ensures visible == Monitored && page.currentTargetId == Some(StableId(device))
      ensures
        var o := Observe(old(page.historyCache), StableId(device), device.speed);
        && page.historyCache == o.history
        && page.saves == old(page.saves) + (if o.saved then 1 else 0)
        && page.chart.active == Lit(ChooseTier(device.speed))
      ensures unchanged(this`registry, this`eventLog, this`saves)
    {
      visible := Monitored;
      var _, _, _ := page.SetTarget(device);
    }

    /** `stop_monitoring`: back to the selection page, re-listing the devices. */
    method StopMonitoring(enumeration: seq<UsbDevice>)
      requires Valid()
      requires forall i :: 0 <= i < |enumeration| ==> enumeration[i].forcedId == None
      modifies this, manager
      ensures Valid()
      ensures visible == Selection
      ensures manager.syspathMap == IndexPaths(old(manager.syspathMap), enumeration)
      ensures manager.deviceCache == IndexCache(old(manager.deviceCache), enumeration)
      ensures manager.dispatched == old(manager.dispatched)
      ensures unchanged(this`registry, this`eventLog, this`saves)
    {
      visible := Selection;
      var _, _ := RefreshDevices(enumeration);
    }

    /** The stop button: the page forgets its target, then the window stops monitoring. */
    method OnStopClicked(enumeration: seq<UsbDevice>)
      requires Valid()
      requires forall i :: 0 <= i < |enumeration| ==> enumeration[i].forcedId == None
      modifies this, manager, page
      ensures Valid()
      ensures visible == Selection && page.currentTargetId == None
      ensures page.historyCache == old(page.historyCache) && page.saves == old(page.saves)
      ensures manager.syspathMap == IndexPaths(old(manager.syspathMap), enumeration)
      ensures manager.deviceCache == IndexCache(old(manager.deviceCache), enumeration)
      ensures manager.dispatched == old(manager.dispatched)
      ensures unchanged(this`registry, this`eventLog, this`saves)
    {
      page.OnStopClicked();
      StopMonitoring(enumeration);
    }
  }
}
