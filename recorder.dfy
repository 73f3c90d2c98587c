/**
 * The bookkeeping of `MainWindow.handle_device_event` in `ui.py`: the device registry (best
 * known name, speeds seen, last seen) and the event log entry written for each event.
 */
module Recorder {
  import opened Wrappers
  import opened Text
  import opened Utils
  import opened Core

  /** A registry entry: the best known name, the integer speeds seen, and the time of the last event. */
  datatype RegistryEntry = RegistryEntry(name: string, speeds: set<int>, lastSeen: string)

  /** One row of the event log. */
  datatype LogEntry = LogEntry(time: string, event: string, deviceName: string, speed: string, bus: string, version: string)

  /** A name built from missing attributes: it mentions "----:----" or "Unknown". */
  predicate IsPlaceholder(name: string) {
    Contains(name, "----:----") || Contains(name, "Unknown")
  }

  /** `t` occurs in `s` at offset `k`. */
  lemma {:induction false} ContainsAt(s: string, t: string, k: nat)
    requires k <= |s| && t <= s[k..]
    ensures Contains(s, t)
    decreases k
  {
    if k > 0 {
      assert s[1..][k - 1..] == s[k..];
      ContainsAt(s[1..], t, k - 1);
    }
  }

  /**
   * The name written for an event: the device's own name, unless it is a placeholder and the
   * registry already knows a name for that identity.
   */
  function DisplayName(registry: map<string, RegistryEntry>, id: string, candidate: string): (name: string)
    ensures name != candidate ==> id in registry && name == registry[id].name
    ensures IsPlaceholder(candidate) && id in registry ==> name == registry[id].name
    ensures !IsPlaceholder(candidate) ==> name == candidate
  {
    if IsPlaceholder(candidate) && id in registry then registry[id].name else candidate
  }

  /** The speed recorded for a raw reading: `int(speed)` when it parses, nothing otherwise. */
  function SpeedSet(speed: string): (s: set<int>)
    ensures forall v :: v in s <==> ParseInt(speed) == Some(v)
  {
    match ParseInt(speed)
    case None => {}
    case Some(v) => {v}
  }

  /** The registry after an event of device `id` whose own name is `candidate`. */
  function Upsert(registry: map<string, RegistryEntry>, id: string, candidate: string, speed: string, now: string)
    : (r: map<string, RegistryEntry>)
    ensures r.Keys == registry.Keys + {id}
    ensures forall k :: k in registry && k != id ==> r[k] == registry[k]
    ensures r[id].lastSeen == now
  {
    var known := if id in registry then registry[id].speeds else {};
    registry[id := RegistryEntry(DisplayName(registry, id, candidate), known + SpeedSet(speed), now)]
  }

  /** A stored name is overwritten only by a candidate that is not a placeholder. */
  lemma NameOverwrittenOnlyByRealName(registry: map<string, RegistryEntry>, id: string, candidate: string, speed: string, now: string)
    requires id in registry
    ensures Upsert(registry, id, candidate, speed, now)[id].name != registry[id].name ==>
              !IsPlaceholder(candidate) && Upsert(registry, id, candidate, speed, now)[id].name == candidate
    ensures IsPlaceholder(candidate) ==> Upsert(registry, id, candidate, speed, now)[id].name == registry[id].name
  {
  }

  /** Once a real name is stored, the stored name stays a real name. */
  lemma RealNameNeverDegrades(registry: map<string, RegistryEntry>, id: string, candidate: string, speed: string, now: string)
    requires id in registry && !IsPlaceholder(registry[id].name)
    ensures !IsPlaceholder(Upsert(registry, id, candidate, speed, now)[id].name)
  {
  }

  /** The registry stores exactly the name the log entry shows. */
  lemma StoredNameIsLoggedName(registry: map<string, RegistryEntry>, id: string, candidate: string, speed: string, now: string)
    ensures Upsert(registry, id, candidate, speed, now)[id].name == DisplayName(registry, id, candidate)
    ensures id !in registry ==> Upsert(registry, id, candidate, speed, now)[id].name == candidate
  {
  }

  /** The speeds set only grows, and only by the parsed reading. */
  lemma SpeedsOnlyGrow(registry: map<string, RegistryEntry>, id: string, candidate: string, speed: string, now: string)
    ensures id in registry ==> registry[id].speeds <= Upsert(registry, id, candidate, speed, now)[id].speeds
    ensures forall v :: v in Upsert(registry, id, candidate, speed, now)[id].speeds ==>
              (id in registry && v in registry[id].speeds) || ParseInt(speed) == Some(v)
    ensures forall v :: ParseInt(speed) == Some(v) ==> v in Upsert(registry, id, candidate, speed, now)[id].speeds
  {
  }

  /**
   * A device whose udev record lost every attribute ("Unknown" vendor and model, "----" ids)
   * is named "USB Device (----:----)", a placeholder.
   */
  lemma UnreadableDeviceIsPlaceholder(d: UsbDevice)
    requires d.vendor == "Unknown" && d.model == "Unknown" && d.vid == "----" && d.pid == "----"
    ensures FriendlyName(d) == "USB Device (" + d.vid + ":" + d.pid + ")"
    ensures IsPlaceholder(FriendlyName(d))
  {
    assert '_' !in d.vid && '_' !in d.pid;
    UnknownPairJoin(d);
    UnknownDeviceName(d);
    PlaceholderFallbackName(d.vid, d.pid);
  }

  /** The fallback name of a device without vendor and product ids holds "----:----". */
  lemma PlaceholderFallbackName(vid: string, pid: string)
    requires vid == "----" && pid == "----"
    ensures IsPlaceholder("USB Device (" + vid + ":" + pid + ")")
  {
    var name := "USB Device (" + vid + ":" + pid + ")";
    assert name[12..21] == vid + ":" + pid;
    ContainsAt(name, "----:----", 12);
  }

  /**
   * A device registered under a real name, then reported under a placeholder name (as an
   * unreadable record is, see `UnreadableDeviceIsPlaceholder`) with a speed `int()` rejects,
   * keeps its name and its speeds, and the second event is logged under the stored name.
   */
  lemma RealNameSurvivesPlaceholderEvent(registry: map<string, RegistryEntry>, id: string, goodName: string,
                                         speed: string, placeholder: string, noSpeed: string, first: string, second: string)
    requires !IsPlaceholder(goodName) && IsPlaceholder(placeholder) && ParseInt(noSpeed).None?
    ensures
      var r1 := Upsert(registry, id, goodName, speed, first);
      var r2 := Upsert(r1, id, placeholder, noSpeed, second);
      && r1[id].name == goodName
      && DisplayName(r1, id, placeholder) == goodName
      && r2[id] == r1[id].(lastSeen := second)
  {
    var r1 := Upsert(registry, id, goodName, speed, first);
    assert r1[id].name == goodName;
    PlaceholderEventKeepsEntry(r1, id, placeholder, noSpeed, second);
  }

  /** An event with a placeholder name and no readable speed only refreshes the last-seen time. */
  lemma PlaceholderEventKeepsEntry(registry: map<string, RegistryEntry>, id: string, placeholder: string,
                                   noSpeed: string, now: string)
    requires id in registry && IsPlaceholder(placeholder) && ParseInt(noSpeed).None?
    ensures Upsert(registry, id, placeholder, noSpeed, now)[id] == registry[id].(lastSeen := now)
  {
    assert SpeedSet(noSpeed) == {};
    assert registry[id].speeds + {} == registry[id].speeds;
  }

  // ---------------------------------------------------------------------------------------
  // Event log
  // ---------------------------------------------------------------------------------------

  /** The event column: "Connected" for add, "Disconnected" for remove, "Changed" for anything else. */
  function EventLabel(action: Action): (shown: string)
    ensures shown == "Connected" <==> action == Add
    ensures shown == "Disconnected" <==> action == Remove
    ensures shown == "Connected" || shown == "Disconnected" || shown == "Changed"
  {
    if action == Add then "Connected"
    else if action == Remove then "Disconnected"
    else "Changed"
  }

  /** The entry logged for an event of `device` shown as `name` at time `now`. */
  function LogEntryFor(action: Action, device: UsbDevice, name: string, now: string): (e: LogEntry)
    ensures e.time == now && e.deviceName == name && e.version == device.version
  {
    LogEntry(
      now,
      EventLabel(action),
      name,
      if action == Remove then "-" else FormatSpeed(device.speed).0,
      device.busNum + "-" + device.sysName,
      device.version)
  }

  /** A removal logs "Disconnected" with speed "-"; any other event logs the formatted speed. */
  lemma LogEntrySpeed(action: Action, device: UsbDevice, name: string, now: string)
    ensures action == Remove ==> LogEntryFor(action, device, name, now).speed == "-"
                                 && LogEntryFor(action, device, name, now).event == "Disconnected"
    ensures action != Remove ==> LogEntryFor(action, device, name, now).speed == FormatSpeed(device.speed).0
  {
  }

  /** The bus column names bus number and port, in that order, joined by '-'. */
  lemma LogEntryBus(action: Action, device: UsbDevice, name: string, now: string)
    requires '-' !in device.busNum
    ensures Split(LogEntryFor(action, device, name, now).bus, '-')[0] == device.busNum
  {
    SplitPiece(device.busNum, device.sysName, '-');
  }
}
