/**
 * `core.py`: the device snapshot and its stable identity, and the `DeviceManager` that keeps
 * the sys_path -> identity map and the identity -> snapshot cache while enumerating devices
 * and processing udev events.
 */
module Core {
  import opened Wrappers
  import opened Text

  /**
   * A `USBDevice`: the attributes read from one udev `usb_device` record, plus the identity
   * override that removal events set. `serial` and `forcedId` are Python values that may be
   * `None`; an empty string counts as absent wherever the source tests their truth.
   */
  datatype UsbDevice = UsbDevice(
    sysPath: string,
    sysName: string,
    vendor: string,
    model: string,
    serial: Option<string>,
    vid: string,
    pid: string,
    busNum: string,
    devNum: string,
    speed: string,
    version: string,
    maxPower: string,
    forcedId: Option<string>)

  /** Python truthiness of an optional string. */
  predicate Truthy(o: Option<string>) {
    o.Some? && o.value != ""
  }

  /** `props.get(key, default)`. */
  function Get(props: map<string, string>, key: string, default: string): string {
    if key in props then props[key] else default
  }

  /**
   * `USBDevice.__init__`: udev properties with their defaults; `speed`, `version` and
   * `maxPower` are the already-read sysfs attributes. A fresh object has no override.
   */
  function FromUdev(sysPath: string, sysName: string, props: map<string, string>,
                    speed: string, version: string, maxPower: string): (d: UsbDevice)
    ensures d.forcedId == None && d.sysPath == sysPath && d.sysName == sysName
    ensures d.vendor == Get(props, "ID_VENDOR", "Unknown") && d.model == Get(props, "ID_MODEL", "Unknown")
    ensures d.vid == Get(props, "ID_VENDOR_ID", "----") && d.pid == Get(props, "ID_MODEL_ID", "----")
    ensures d.busNum == Get(props, "BUSNUM", "?") && d.devNum == Get(props, "DEVNUM", "?")
    ensures "ID_SERIAL_SHORT" in props ==> d.serial == Some(props["ID_SERIAL_SHORT"])
    ensures "ID_SERIAL_SHORT" !in props ==> d.serial == None
    ensures d.speed == speed && d.version == version && d.maxPower == maxPower
  {
    UsbDevice(
      sysPath, sysName,
      Get(props, "ID_VENDOR", "Unknown"),
      Get(props, "ID_MODEL", "Unknown"),
      if "ID_SERIAL_SHORT" in props then Some(props["ID_SERIAL_SHORT"]) else None,
      Get(props, "ID_VENDOR_ID", "----"),
      Get(props, "ID_MODEL_ID", "----"),
      Get(props, "BUSNUM", "?"),
      Get(props, "DEVNUM", "?"),
      speed, version, maxPower,
      None)
  }

  // ---------------------------------------------------------------------------------------
  // Identity
  // ---------------------------------------------------------------------------------------

  /** `USBDevice.stable_id`: the override, else the serial, else vendor/product ids and port. */
  function StableId(d: UsbDevice): (id: string)
    ensures id != ""
  {
    if Truthy(d.forcedId) then d.forcedId.value
    else if Truthy(d.serial) then "SERIAL:" + d.serial.value
    else "PATH:" + d.vid + ":" + d.pid + ":" + d.sysName
  }

  /** The shape of an identity computed from attributes. */
  predicate IsComputedId(id: string) {
    "SERIAL:" <= id || "PATH:" <= id
  }

  /** A non-empty override is returned verbatim, whatever the other attributes are. */
  lemma StableIdForced(d: UsbDevice)
    requires Truthy(d.forcedId)
    ensures StableId(d) == d.forcedId.value
  {
  }

  /** Without an override, a serial decides the identity; vid, pid and port do not matter. */
  lemma StableIdSerialFirst(d: UsbDevice, e: UsbDevice)
    requires !Truthy(d.forcedId) && !Truthy(e.forcedId)
    requires Truthy(d.serial) && e.serial == d.serial
    ensures StableId(d) == "SERIAL:" + d.serial.value
    ensures StableId(e) == StableId(d)
  {
  }

  /** Without an override or a serial, the identity is exactly PATH:vid:pid:sys_name. */
  lemma StableIdPathFallback(d: UsbDevice)
    requires !Truthy(d.forcedId) && !Truthy(d.serial)
    ensures StableId(d) == "PATH:" + d.vid + ":" + d.pid + ":" + d.sysName
  {
  }

  /** Computed identities are SERIAL: or PATH: keys. */
  lemma ComputedIdShape(d: UsbDevice)
    requires !Truthy(d.forcedId)
    ensures IsComputedId(StableId(d))
  {
    var id := StableId(d);
    if Truthy(d.serial) {
      assert id[..7] == "SERIAL:";
    } else {
      assert id[..5] == "PATH:";
    }
  }

  /** A serial-based identity never equals a port-based one. */
  lemma SerialAndPathIdsDiffer(d: UsbDevice, e: UsbDevice)
    requires !Truthy(d.forcedId) && !Truthy(e.forcedId)
    requires Truthy(d.serial) && !Truthy(e.serial)
    ensures StableId(d) != StableId(e)
  {
    assert StableId(d)[0] == 'S' && StableId(e)[0] == 'P';
  }

  // ---------------------------------------------------------------------------------------
  // Display name
  // ---------------------------------------------------------------------------------------

  /** `get_friendly_name`: "vendor model" stripped, a fallback for two unknowns, '_' as ' '. */
  function FriendlyName(d: UsbDevice): (name: string)
    ensures '_' !in name
    ensures var joined := Strip(d.vendor + " " + d.model);
            joined != "Unknown Unknown" ==>
              |name| == |joined| && forall i :: 0 <= i < |joined| ==> name[i] == (if joined[i] == '_' then ' ' else joined[i])
  {
    var joined := Strip(d.vendor + " " + d.model);
    var chosen := if joined == "Unknown Unknown" then "USB Device (" + d.vid + ":" + d.pid + ")" else joined;
    ReplaceUnderscoresRemovesAll(chosen);
    ReplaceUnderscores(chosen)
  }

  /** A vendor and model whose joined, stripped text is "Unknown Unknown" give the vid:pid fallback name. */
  lemma FriendlyNameOfUnknown(d: UsbDevice)
    requires Strip(d.vendor + " " + d.model) == "Unknown Unknown"
    ensures FriendlyName(d) == ReplaceUnderscores("USB Device (" + d.vid + ":" + d.pid + ")")
  {
  }

  /** Any other device is named by its stripped "vendor model", with each '_' shown as ' '. */
  lemma FriendlyNameOfKnown(d: UsbDevice)
    requires Strip(d.vendor + " " + d.model) != "Unknown Unknown"
    ensures FriendlyName(d) == ReplaceUnderscores(Strip(d.vendor + " " + d.model))
  {
  }

  /** Vendor and model both the default "Unknown" join and strip to "Unknown Unknown". */
  lemma UnknownPairJoin(d: UsbDevice)
    requires d.vendor == "Unknown" && d.model == "Unknown"
    ensures Strip(d.vendor + " " + d.model) == "Unknown Unknown"
  {
    var joined := d.vendor + " " + d.model;
    assert joined == "Unknown Unknown";
    assert !IsSpace(joined[0]) && !IsSpace(joined[|joined| - 1]);
  }

  /** The fallback name keeps vendor and product ids that hold no underscore as they are. */
  lemma FallbackNameKept(vid: string, pid: string)
    requires '_' !in vid && '_' !in pid
    ensures ReplaceUnderscores("USB Device (" + vid + ":" + pid + ")") == "USB Device (" + vid + ":" + pid + ")"
  {
    var prefix := "USB Device (";
    assert forall i :: 0 <= i < |prefix| ==> prefix[i] != '_';
    ReplaceUnderscoresKeeps(prefix + vid + ":" + pid + ")");
  }

  /** A device whose vendor and model read "Unknown Unknown", and ids without '_', is named exactly by the fallback. */
  lemma UnknownDeviceName(d: UsbDevice)
    requires Strip(d.vendor + " " + d.model) == "Unknown Unknown" && '_' !in d.vid && '_' !in d.pid
    ensures FriendlyName(d) == "USB Device (" + d.vid + ":" + d.pid + ")"
  {
    FriendlyNameOfUnknown(d);
    FallbackNameKept(d.vid, d.pid);
  }

  // ---------------------------------------------------------------------------------------
  // Events
  // ---------------------------------------------------------------------------------------

  /** The udev action of an event; any other action string is carried through as `Other`. */
  datatype Action = Add | Remove | Change | Bind | Unbind | Other(name: UnknownActionName)

  /** An action string other than the five udev actions the monitor tells apart. */
  type UnknownActionName = s: string | s !in {"add", "remove", "change", "bind", "unbind"} witness "online"

  function ActionName(a: Action): string {
    match a
    case Add => "add"
    case Remove => "remove"
    case Change => "change"
    case Bind => "bind"
    case Unbind => "unbind"
    case Other(n) => n
  }

  /** The action a udev action string denotes. */
  function ParseAction(s: string): (a: Action)
    ensures ActionName(a) == s
  {
    if s == "add" then Add
    else if s == "remove" then Remove
    else if s == "change" then Change
    else if s == "bind" then Bind
    else if s == "unbind" then Unbind
    else Other(s)
  }

  /** Every action survives a round trip through its name. */
  lemma ParseActionName(a: Action)
    ensures ParseAction(ActionName(a)) == a
  {
  }

  /** Remove and unbind are the events whose identity is recovered from the path map. */
  predicate IsDetach(a: Action) {
    a == Remove || a == Unbind
  }

  /**
   * The device handed on for an event: on remove/unbind whose sys_path is recorded, the
   * recorded identity becomes the override; otherwise the snapshot as read.
   */
  function Resolve(pathMap: map<string, string>, action: Action, d: UsbDevice): (r: UsbDevice)
    ensures r.(forcedId := d.forcedId) == d
  {
    if IsDetach(action) && d.sysPath in pathMap then d.(forcedId := Some(pathMap[d.sysPath])) else d
  }

  /** `_syspath_map` after one event. */
  function NextPathMap(pathMap: map<string, string>, action: Action, d: UsbDevice): (r: map<string, string>)
    ensures forall p :: p != d.sysPath ==> (p in r <==> p in pathMap) && (p in r ==> r[p] == pathMap[p])
  {
    match action
    case Add => pathMap[d.sysPath := StableId(d)]
    case Remove => pathMap - {d.sysPath}
    case _ => pathMap
  }

  /** `_device_cache` after one event, keyed by the resolved device's identity. */
  function NextCache(cache: map<string, UsbDevice>, action: Action, resolved: UsbDevice): (r: map<string, UsbDevice>)
    ensures forall id :: id != StableId(resolved) ==> (id in r <==> id in cache) && (id in r ==> r[id] == cache[id])
  {
    match action
    case Add => cache[StableId(resolved) := resolved]
    case Remove => cache - {StableId(resolved)}
    case _ => cache
  }

  /** A remove/unbind on a recorded path takes the recorded identity, whatever the snapshot now says. */
  lemma DetachUsesRecordedId(pathMap: map<string, string>, action: Action, d: UsbDevice)
    requires IsDetach(action) && d.sysPath in pathMap && pathMap[d.sysPath] != ""
    ensures StableId(Resolve(pathMap, action, d)) == pathMap[d.sysPath]
  {
  }

  /** An event on an unrecorded path, or any other action, keeps the computed identity. */
  lemma UnrecordedKeepsComputedId(pathMap: map<string, string>, action: Action, d: UsbDevice)
    requires !IsDetach(action) || d.sysPath !in pathMap
    ensures StableId(Resolve(pathMap, action, d)) == StableId(d)
  {
  }

  /**
   * An add followed by a remove or unbind on the same sys_path resolves to the identity of the
   * add, even when the later snapshot has lost its serial, vid and pid.
   */
  lemma DetachCorrelatesWithAdd(pathMap: map<string, string>, added: UsbDevice, action: Action, gone: UsbDevice)
    requires gone.sysPath == added.sysPath && IsDetach(action)
    ensures StableId(Resolve(NextPathMap(pathMap, Add, added), action, gone)) == StableId(added)
  {
  }

  /**
   * A reused sys_path is taken for the same device: a remove on a path recorded for `first`
   * resolves to `first`'s identity even when the departing device computes to a different one.
   */
  lemma PathReuseIsTakenForSameDevice(pathMap: map<string, string>, first: UsbDevice, other: UsbDevice)
    requires !Truthy(first.forcedId) && !Truthy(other.forcedId)
    requires other.sysPath == first.sysPath && StableId(other) != StableId(first)
    ensures StableId(Resolve(NextPathMap(pathMap, Add, first), Remove, other)) == StableId(first)
    ensures StableId(Resolve(NextPathMap(pathMap, Add, first), Remove, other)) != StableId(other)
  {
  }

  /**
   * What one event does to the two maps: add records both; remove drops the path entry and
   * the resolved identity's cache entry; unbind, change, bind and other actions touch neither.
   */
  lemma EventEffects(pathMap: map<string, string>, cache: map<string, UsbDevice>, action: Action, d: UsbDevice)
    ensures action == Add ==>
      NextPathMap(pathMap, action, d)[d.sysPath] == StableId(d) && NextCache(cache, action, d)[StableId(d)] == d
    ensures action == Remove ==>
      && d.sysPath !in NextPathMap(pathMap, action, d)
      && StableId(Resolve(pathMap, action, d)) !in NextCache(cache, action, Resolve(pathMap, action, d))
    ensures action != Add && action != Remove ==>
      && NextPathMap(pathMap, action, d) == pathMap
      && NextCache(cache, action, Resolve(pathMap, action, d)) == cache
  {
  }

  /** The path map after a run of events. */
  function ReplayPaths(pathMap: map<string, string>, events: seq<(Action, UsbDevice)>): map<string, string>
    decreases |events|
  {
    if events == [] then pathMap
    else ReplayPaths(NextPathMap(pathMap, events[0].0, events[0].1), events[1..])
  }

  /**
   * A recorded identity survives any run of events that neither adds nor removes a device on
   * its sys_path; in particular it survives unbind, so a later remove still correlates.
   */
  lemma {:induction false} RecordedIdSurvives(pathMap: map<string, string>, events: seq<(Action, UsbDevice)>, p: string)
    requires p in pathMap
    requires forall i :: 0 <= i < |events| && events[i].1.sysPath == p ==> events[i].0 != Add && events[i].0 != Remove
    ensures p in ReplayPaths(pathMap, events) && ReplayPaths(pathMap, events)[p] == pathMap[p]
    decreases |events|
  {
    if events != [] {
      var next := NextPathMap(pathMap, events[0].0, events[0].1);
      assert p in next && next[p] == pathMap[p];
      RecordedIdSurvives(next, events[1..], p);
    }
  }

  // ---------------------------------------------------------------------------------------
  // Enumeration
  // ---------------------------------------------------------------------------------------

  /** `_syspath_map` after enumerating `ds` in order. */
  function IndexPaths(pathMap: map<string, string>, ds: seq<UsbDevice>): (r: map<string, string>)
    ensures pathMap.Keys <= r.Keys
  {
    if ds == [] then pathMap
    else IndexPaths(pathMap, ds[..|ds| - 1])[ds[|ds| - 1].sysPath := StableId(ds[|ds| - 1])]
  }

  /** `_device_cache` after enumerating `ds` in order. */
  function IndexCache(cache: map<string, UsbDevice>, ds: seq<UsbDevice>): (r: map<string, UsbDevice>)
    ensures cache.Keys <= r.Keys
  {
    if ds == [] then cache
    else IndexCache(cache, ds[..|ds| - 1])[StableId(ds[|ds| - 1]) := ds[|ds| - 1]]
  }

  /** The paths recorded after an enumeration are the old ones and the listed ones. */
  lemma {:induction false} IndexPathsKeys(pathMap: map<string, string>, ds: seq<UsbDevice>)
    ensures IndexPaths(pathMap, ds).Keys == pathMap.Keys + set i | 0 <= i < |ds| :: ds[i].sysPath
  {
    if ds != [] {
      var init := ds[..|ds| - 1];
      IndexPathsKeys(pathMap, init);
      assert (set i | 0 <= i < |ds| :: ds[i].sysPath)
          == (set i | 0 <= i < |init| :: init[i].sysPath) + {ds[|ds| - 1].sysPath};
    }
  }

  /** A listed sys_path maps to the identity of the last device listed on it. */
  lemma {:induction false} IndexPathsLastWins(pathMap: map<string, string>, ds: seq<UsbDevice>, i: int)
    requires 0 <= i < |ds|
    requires forall k :: i < k < |ds| ==> ds[k].sysPath != ds[i].sysPath
    ensures ds[i].sysPath in IndexPaths(pathMap, ds)
    ensures IndexPaths(pathMap, ds)[ds[i].sysPath] == StableId(ds[i])
  {
    if i < |ds| - 1 {
      var init := ds[..|ds| - 1];
      IndexPathsLastWins(pathMap, init, i);
    }
  }

  /** A sys_path that is not listed keeps its old entry. */
  lemma {:induction false} IndexPathsKeepsUnlisted(pathMap: map<string, string>, ds: seq<UsbDevice>, p: string)
    requires p in pathMap
    requires forall k :: 0 <= k < |ds| ==> ds[k].sysPath != p
    ensures p in IndexPaths(pathMap, ds) && IndexPaths(pathMap, ds)[p] == pathMap[p]
  {
    if ds != [] {
      var init := ds[..|ds| - 1];
      assert forall k :: 0 <= k < |init| ==> init[k] == ds[k];
      IndexPathsKeepsUnlisted(pathMap, init, p);
    }
  }

  /** With distinct sys_paths, each listed path maps to exactly its own device's identity. */
  lemma IndexPathsDistinct(pathMap: map<string, string>, ds: seq<UsbDevice>)
    requires forall i, j :: 0 <= i < j < |ds| ==> ds[i].sysPath != ds[j].sysPath
    ensures forall i :: 0 <= i < |ds| ==> ds[i].sysPath in IndexPaths(pathMap, ds)
                                          && IndexPaths(pathMap, ds)[ds[i].sysPath] == StableId(ds[i])
  {
    forall i | 0 <= i < |ds|
      ensures ds[i].sysPath in IndexPaths(pathMap, ds) && IndexPaths(pathMap, ds)[ds[i].sysPath] == StableId(ds[i])
    {
      IndexPathsLastWins(pathMap, ds, i);
    }
  }

  /** The identities cached after an enumeration are the old ones and the listed ones. */
  lemma {:induction false} IndexCacheKeys(cache: map<string, UsbDevice>, ds: seq<UsbDevice>)
    ensures IndexCache(cache, ds).Keys == cache.Keys + set i | 0 <= i < |ds| :: StableId(ds[i])
  {
    if ds != [] {
      var init := ds[..|ds| - 1];
      IndexCacheKeys(cache, init);
      var listed := set i | 0 <= i < |ds| :: StableId(ds[i]);
      var earlier := set i | 0 <= i < |init| :: StableId(init[i]);
      forall id | id in listed
        ensures id in earlier || id == StableId(ds[|ds| - 1])
      {
        var i :| 0 <= i < |ds| && StableId(ds[i]) == id;
        if i < |init| {
          assert StableId(init[i]) == id;
        }
      }
      forall id | id in earlier
        ensures id in listed
      {
        var i :| 0 <= i < |init| && StableId(init[i]) == id;
        assert StableId(ds[i]) == id;
      }
      assert StableId(ds[|ds| - 1]) in listed;
      assert listed == earlier + {StableId(ds[|ds| - 1])};
    }
  }

  /** A listed identity holds the snapshot of the last device listed with it. */
  lemma {:induction false} IndexCacheLastWins(cache: map<string, UsbDevice>, ds: seq<UsbDevice>, i: int)
    requires 0 <= i < |ds|
    requires forall k :: i < k < |ds| ==> StableId(ds[k]) != StableId(ds[i])
    ensures StableId(ds[i]) in IndexCache(cache, ds)
    ensures IndexCache(cache, ds)[StableId(ds[i])] == ds[i]
  {
    if i < |ds| - 1 {
      var init := ds[..|ds| - 1];
      IndexCacheLastWins(cache, init, i);
    }
  }

  /** An identity that is not listed keeps its old cache entry. */
  lemma {:induction false} IndexCacheKeepsUnlisted(cache: map<string, UsbDevice>, ds: seq<UsbDevice>, id: string)
    requires id in cache
    requires forall k :: 0 <= k < |ds| ==> StableId(ds[k]) != id
    ensures id in IndexCache(cache, ds) && IndexCache(cache, ds)[id] == cache[id]
  {
    if ds != [] {
      var init := ds[..|ds| - 1];
      assert forall k :: 0 <= k < |init| ==> init[k] == ds[k];
      IndexCacheKeepsUnlisted(cache, init, id);
    }
  }

  // ---------------------------------------------------------------------------------------
  // DeviceManager
  // ---------------------------------------------------------------------------------------

  /**
   * `DeviceManager`: the path map and the device cache, and the events handed to the
   * registered callback, in order.
   */
  class DeviceManager {
    var syspathMap: map<string, string>
    var deviceCache: map<string, UsbDevice>
    var dispatched: seq<(Action, UsbDevice)>

    /** Recorded identities are computed ones; the cache holds fresh snapshots under their own identity. */
    ghost predicate Valid()
      reads this
    {
      && (forall p :: p in syspathMap ==> IsComputedId(syspathMap[p]))
      && (forall id :: id in deviceCache ==> deviceCache[id].forcedId == None && StableId(deviceCache[id]) == id)
    }

    constructor ()
      ensures Valid()
      ensures syspathMap == map[] && deviceCache == map[] && dispatched == []
    {
      syspathMap := map[];
      deviceCache := map[];
      dispatched := [];
    }

    /** `list_devices`: take the enumeration in order, caching each device and recording its path. */
    method ListDevices(enumeration: seq<UsbDevice>) returns (devices: seq<UsbDevice>)
      requires Valid()
      requires forall i :: 0 <= i < |enumeration| ==> enumeration[i].forcedId == None
      modifies this
      ensures Valid()
      ensures devices == enumeration
      ensures syspathMap == IndexPaths(old(syspathMap), enumeration)
      ensures deviceCache == IndexCache(old(deviceCache), enumeration)
      ensures dispatched == old(dispatched)
    {
      devices := [];
      for i := 0 to |enumeration|
        invariant Valid()
        invariant devices == enumeration[..i]
        invariant syspathMap == IndexPaths(old(syspathMap), enumeration[..i])
        invariant deviceCache == IndexCache(old(deviceCache), enumeration[..i])
        invariant dispatched == old(dispatched)
      {
        var dev := enumeration[i];
        ghost var listed := enumeration[..i + 1];
        assert listed[..i] == enumeration[..i] && listed[i] == dev;
        devices := devices + [dev];
        Index(dev);
      }
      assert enumeration[..|enumeration|] == enumeration;
    }

    /** One step of `list_devices`: cache the device under its identity and record its path. */
    method Index(dev: UsbDevice)
      requires Valid() && dev.forcedId == None
      modifies this
      ensures Valid()
      ensures syspathMap == old(syspathMap)[dev.sysPath := StableId(dev)]
      ensures deviceCache == old(deviceCache)[StableId(dev) := dev]
      ensures dispatched == old(dispatched)
    {
      var id := StableId(dev);
      ComputedIdShape(dev);
      deviceCache := deviceCache[id := dev];
      syspathMap := syspathMap[dev.sysPath := id];
    }

    /** The body of `_monitor_loop` for one polled device: update both maps, then notify. */
    method Step(action: Action, d: UsbDevice) returns (resolved: UsbDevice)
      requires Valid() && d.forcedId == None
      modifies this
      ensures Valid()
      ensures resolved == Resolve(old(syspathMap), action, d)
      ensures syspathMap == NextPathMap(old(syspathMap), action, d)
      ensures deviceCache == NextCache(old(deviceCache), action, resolved)
      ensures dispatched == old(dispatched) + [(action, resolved)]
    {
      resolved := TrackPath(action, d);
      UpdateCache(action, resolved);
      dispatched := dispatched + [(action, resolved)];
    }

    /** The identity-persistence half of one event: record or drop the path, and resolve a detach. */
    method TrackPath(action: Action, d: UsbDevice) returns (resolved: UsbDevice)
      requires Valid() && d.forcedId == None
      modifies this
      ensures Valid()
      ensures resolved == Resolve(old(syspathMap), action, d)
      ensures syspathMap == NextPathMap(old(syspathMap), action, d)
      ensures unchanged(this`deviceCache, this`dispatched)
    {
      resolved := d;
      if action == Add {
        ComputedIdShape(d);
        syspathMap := syspathMap[d.sysPath := StableId(d)];
      } else if action == Remove || action == Unbind {
        if d.sysPath in syspathMap {
          var knownId := syspathMap[d.sysPath];
          resolved := resolved.(forcedId := Some(knownId));
          if action == Remove {
            syspathMap := syspathMap - {d.sysPath};
          }
        }
      }
    }

    /** The cache half of one event: cache an added device, drop a removed one. */
    method UpdateCache(action: Action, resolved: UsbDevice)
      requires Valid() && (action == Add ==> resolved.forcedId == None)
      modifies this
      ensures Valid()
      ensures deviceCache == NextCache(old(deviceCache), action, resolved)
      ensures unchanged(this`syspathMap, this`dispatched)
    {
      if action == Add {
        deviceCache := deviceCache[StableId(resolved) := resolved];
      } else if action == Remove {
        if StableId(resolved) in deviceCache {
          deviceCache := deviceCache - {StableId(resolved)};
        }
      }
    }
  }
}
