# CordIDMonitor — identity, event correlation and link-health model

CordIDMonitor watches the USB bus. It gives each plugged device a stable identity, keeps an
eye on the link speed of one chosen device, and records every connect and disconnect in a
registry and an event log. This project models the decision-making core of that program and
proves what it promises:

- **Identity** (`core.py`): a device snapshot is a record of strings read from udev and sysfs.
  Its `stable_id` is taken from a forced override first, then from `SERIAL:<serial>`, and
  otherwise from `PATH:<vid>:<pid>:<sys_name>`. `get_friendly_name` gives the display name.
- **Event correlation** (`core.py`): `DeviceManager` is a class holding the sys_path → identity
  map and the identity → snapshot cache.
  - `ListDevices` enumerates devices with a loop.
  - `Step` is one pass of the udev monitor loop. It records added devices. On remove and unbind,
    it recovers the identity recorded for the path, even when the departing snapshot no longer
    shows its serial. It updates the cache, then hands the event to the listener. The model
    keeps the known approximation that a reused sys_path is taken for the same device.
- **Formatting** (`utils.py`):
  - `format_speed`: the speed text and the USB marketing label.
  - `get_usb_version_label`: the protocol-version label.
  - `UpdateChecker._is_newer`: the release comparison, modelled as a method with the source's
    two padding loops. It is proved against a specification and shown to be a strict order.
- **Speed chart** (`ui.py`): `USBVersionChart` lights at most one tier node. It takes an exact
  key when the text matches one. Otherwise it takes the nearest tier below the reading, or the
  lowest tier for a reading slower than every tier.
- **Link health** (`ui.py`): `MonitoringPage` keeps, for each identity, the fastest speed ever
  seen. It flags a downgrade exactly when the current reading is below that maximum, and it
  chooses between the "legacy USB 2.0" wording and the generic wording.
- **Main window** (`ui.py`): `MainWindow.handle_device_event` works in two halves.
  - It upserts the device registry: a placeholder name never overwrites a real one, `last_seen`
    is set, and a speed joins the set only when it parses. It then appends exactly one log entry.
  - It then routes the event. The selection page re-lists devices; the monitoring page reacts
    only to its own target.
  - `refresh_devices` partitions the connected devices into all devices and the previously
    monitored ones.

Python's string built-ins are modelled in `text.dfy`: `str.strip`, `in`, `replace`,
`int(str)`, `str(int)` and `split`. `startswith` is Dafny's own prefix test `<=`. `str.strip()`
removes the characters for which `str.isspace()` holds. `int()` is modelled closely, because
whether a speed parses decides several branches:
- it skips the same whitespace as `str.strip()`, except the four separators U+001C..U+001F,
  which it rejects;
- it allows one sign;
- digits may be separated by single underscores.

Failure of `int()` (Python's `ValueError`) is `None`.

Source paths below are relative to the repository root. `core.py` and `utils.py` live under
`src/cord_id_monitor/`, and `ui.py` under `cord_id_monitor/src/cord_id_monitor/`.

## Model

| member | source | states |
|---|---|---|
| Core.FromUdev | src/cord_id_monitor/core.py:15-42 | each udev property is read on its own with its own default (vendor and model "Unknown", ids "----", bus and device number "?"); the serial is the property when present and absent otherwise; speed, version and max power are the sysfs readings; a fresh snapshot has no override |
| Core.StableId | src/cord_id_monitor/core.py:55-70 | an identity is never empty |
| Core.StableIdForced | src/cord_id_monitor/core.py:62-63 | a non-empty override is returned verbatim, whatever the other attributes are |
| Core.StableIdSerialFirst | src/cord_id_monitor/core.py:65-66 | with no override, a non-empty serial gives "SERIAL:"+serial; two snapshots with that serial get the same identity whatever their vid, pid and port |
| Core.StableIdPathFallback | src/cord_id_monitor/core.py:68-70 | with neither override nor serial, the identity is exactly "PATH:"+vid+":"+pid+":"+sys_name |
| Core.ComputedIdShape | src/cord_id_monitor/core.py:65-70 | a computed identity starts with "SERIAL:" or "PATH:" |
| Core.SerialAndPathIdsDiffer | src/cord_id_monitor/core.py:65-70 | a serial-based identity never equals a port-based one |
| Core.FriendlyName | src/cord_id_monitor/core.py:72-76 | the display name never contains '_'; unless the stripped "vendor model" is "Unknown Unknown", the name has that text's length and each of its characters, with '_' shown as ' ' |
| Core.FriendlyNameOfUnknown | src/cord_id_monitor/core.py:73-76 | whenever the joined, stripped "vendor model" is "Unknown Unknown", the name is "USB Device (vid:pid)" with '_' replaced by ' ' |
| Core.FriendlyNameOfKnown | src/cord_id_monitor/core.py:73-76 | otherwise the name is the stripped "vendor model" with each '_' replaced by ' ' |
| Core.UnknownPairJoin | src/cord_id_monitor/core.py:25-26 | the default vendor and model "Unknown" join and strip to "Unknown Unknown" |
| Core.UnknownDeviceName | src/cord_id_monitor/core.py:72-76 | when the stripped "vendor model" is "Unknown Unknown" and the ids are free of '_', the name is exactly "USB Device (vid:pid)" |
| Core.ParseAction | src/cord_id_monitor/core.py:142 | the parsed action's name is the udev action string |
| Core.ParseActionName | src/cord_id_monitor/core.py:142 | every action, an unknown one included, survives a round trip through its udev name |
| Core.Resolve | src/cord_id_monitor/core.py:147-150 | resolution changes at most the override; every attribute read from udev is kept |
| Core.NextPathMap | src/cord_id_monitor/core.py:145-152 | one event changes the sys_path map at most at the event's own sys_path |
| Core.NextCache | src/cord_id_monitor/core.py:157-162 | one event changes the cache at most at the resolved identity |
| Core.DetachUsesRecordedId | src/cord_id_monitor/core.py:147-150 | a remove or unbind on a recorded sys_path takes the recorded identity, whatever serial, vid or pid now say |
| Core.UnrecordedKeepsComputedId | src/cord_id_monitor/core.py:145-150 | on an unrecorded path, and for every other action, the identity is the computed one |
| Core.DetachCorrelatesWithAdd | src/cord_id_monitor/core.py:145-150 | a remove or unbind on the path of an earlier add resolves to the identity recorded at the add |
| Core.PathReuseIsTakenForSameDevice | src/cord_id_monitor/core.py:145-152 | a different device removed from a reused path is reported under the first device's identity, not its own |
| Core.EventEffects | src/cord_id_monitor/core.py:145-162 | add records the path and caches the snapshot; remove drops the path entry and the resolved identity's cache entry; unbind, change, bind and unknown actions leave both maps as they were |
| Core.RecordedIdSurvives | src/cord_id_monitor/core.py:145-152 | a recorded identity survives any run of events that neither adds nor removes on its path, unbind included |
| Core.IndexPaths | src/cord_id_monitor/core.py:108-112 | enumeration never loses a recorded path |
| Core.IndexCache | src/cord_id_monitor/core.py:108-111 | enumeration never loses a cached identity |
| Core.IndexPathsKeys | src/cord_id_monitor/core.py:108-112 | after enumeration, the recorded paths are the old ones plus every listed sys_path |
| Core.IndexPathsLastWins | src/cord_id_monitor/core.py:112 | a listed sys_path maps to the identity of the last device listed on it |
| Core.IndexPathsKeepsUnlisted | src/cord_id_monitor/core.py:108-112 | a path not listed keeps its entry |
| Core.IndexPathsDistinct | src/cord_id_monitor/core.py:108-112 | with distinct sys_paths, every listed device's path maps to its own identity |
| Core.IndexCacheKeys | src/cord_id_monitor/core.py:108-111 | after enumeration, the cached identities are the old ones plus every listed identity |
| Core.IndexCacheLastWins | src/cord_id_monitor/core.py:111 | a listed identity holds the snapshot of the last device listed with it |
| Core.IndexCacheKeepsUnlisted | src/cord_id_monitor/core.py:108-111 | an identity not listed keeps its cached snapshot |
| Core.DeviceManager.constructor | src/cord_id_monitor/core.py:86-101 | both maps start empty and no event has been dispatched |
| Core.DeviceManager.ListDevices | src/cord_id_monitor/core.py:103-113 | returns the enumeration in order; the path map and cache become the enumeration folds; recorded identities stay computed ones and cached snapshots sit under their own identity |
| Core.DeviceManager.Index | src/cord_id_monitor/core.py:109-112 | one loop step caches the device under its identity and records its path |
| Core.DeviceManager.Step | src/cord_id_monitor/core.py:140-166 | returns the resolved snapshot; both maps move by one event; the listener receives exactly this one event, appended to those before it |
| Core.DeviceManager.TrackPath | src/cord_id_monitor/core.py:144-152 | the path map moves by one event and the resolved snapshot is returned; the cache is untouched |
| Core.DeviceManager.UpdateCache | src/cord_id_monitor/core.py:157-162 | the cache moves by one event under the resolved identity; the path map is untouched |
| Utils.FormatSpeed | src/cord_id_monitor/utils.py:3-37 | the speed text is never empty; text that int() accepts is always shown with a " Mbps" or " Gbps" unit; text it rejects gets no label |
| Utils.FormatMbps | src/cord_id_monitor/utils.py:16-37 | every integer reading is shown with a " Mbps" or " Gbps" unit |
| Utils.FormatSpeedUnknown | src/cord_id_monitor/utils.py:8-9 | "" and "N/A" give ("Unknown", "") |
| Utils.FormatSpeedNonNumeric | src/cord_id_monitor/utils.py:11-14 | text that int() rejects is returned unchanged with an empty label |
| Utils.FormatMbpsStandard | src/cord_id_monitor/utils.py:17-32 | the eight standard rates give their fixed text and label; any other integer gets an empty label |
| Utils.FormatSpeedLabelIffStandard | src/cord_id_monitor/utils.py:8-37 | a label appears exactly when the text parses to one of the standard rates |
| Utils.FormatMbpsLabelIffStandard | src/cord_id_monitor/utils.py:16-37 | an integer reading gets a label exactly when it is one of the eight standard rates |
| Utils.FormatMbpsSmall | src/cord_id_monitor/utils.py:37 | a non-standard rate below 1000 is "<n> Mbps" with an empty label, and the number shown parses back to n |
| Utils.FormatMbpsWholeGbps | src/cord_id_monitor/utils.py:34-35 | a non-standard multiple of 1000 below 10^9 is shown as a whole number of Gbps with an empty label |
| Utils.UsbVersionLabel | src/cord_id_monitor/utils.py:39-56 | the label mapping itself; its meaning is proved by UsbVersionLabelIsFirstMatch, UsbVersionLabelShape and UsbVersionLabelUnknown |
| Utils.UsbVersionLabelIsFirstMatch | src/cord_id_monitor/utils.py:46-56 | the label is that of the first prefix among 1.1, 2.0, 2.1, 3.0, 3.1, 3.2, 4.0 that starts the stripped text, else "USB "+stripped |
| Utils.UsbVersionLabelShape | src/cord_id_monitor/utils.py:43-56 | "" and "N/A" give "Unknown"; every other version string gets a label starting with "USB" |
| Utils.UsbVersionLabelUnknown | src/cord_id_monitor/utils.py:43-56 | the label is "Unknown" exactly for "" and "N/A" |
| Utils.ParsePartsMeaning | src/cord_id_monitor/utils.py:95-96 | the list comprehension succeeds exactly when every piece parses, and then holds the pieces' values in order |
| Utils.Padded | src/cord_id_monitor/utils.py:99-100 | the padded list keeps the parts and appends zeros up to three |
| Utils.Newer | src/cord_id_monitor/utils.py:92-104 | a release can be newer only when both version strings split into parts that int() accepts |
| Utils.IsNewer | src/cord_id_monitor/utils.py:92-104 | the answer is True exactly when both versions parse and the padded latest is lexicographically greater |
| Utils.PadToThree | src/cord_id_monitor/utils.py:99-100 | the padding loop yields the padded list |
| Utils.NewerIrreflexive | src/cord_id_monitor/utils.py:102 | no version is newer than itself |
| Utils.NewerAsymmetric | src/cord_id_monitor/utils.py:102 | two versions are never each newer than the other |
| Utils.NewerTransitive | src/cord_id_monitor/utils.py:102 | newer than newer is newer |
| Utils.PaddingMakesEqual | src/cord_id_monitor/utils.py:99-100 | fewer than three parts pad to the same list as the parts with a zero appended |
| Utils.ShortVersionNotNewer | src/cord_id_monitor/utils.py:98-102 | "1.0" and "1.0.0" compare equal: neither is newer |
| Utils.UnparsableNeverNewer | src/cord_id_monitor/utils.py:94-96 | a piece that int() rejects makes the answer False (the bare except) |
| Utils.EmptyTagNeverNewer | src/cord_id_monitor/utils.py:103-104 | an empty release tag is never newer |
| Chart.BucketTier | cord_id_monitor/src/cord_id_monitor/ui.py:186-191 | the fallback always names an existing node |
| Chart.ChooseTier | cord_id_monitor/src/cord_id_monitor/ui.py:171-193 | the chosen node, if any, is one of the six keys |
| Chart.ChooseTierNoneIff | cord_id_monitor/src/cord_id_monitor/ui.py:176-193 | no node is chosen exactly for "", "N/A", and text that is neither a key nor an integer |
| Chart.ChooseTierExactKey | cord_id_monitor/src/cord_id_monitor/ui.py:180-181 | an exact key chooses its own node |
| Chart.BucketIsNearestLower | cord_id_monitor/src/cord_id_monitor/ui.py:186-191 | the bucket's rate is at most the reading (except the lowest tier), and the next tier's rate is above it |
| Chart.BucketMonotone | cord_id_monitor/src/cord_id_monitor/ui.py:186-191 | a faster reading never lights a slower node |
| Chart.ExactKeyAgreesWithBucket | cord_id_monitor/src/cord_id_monitor/ui.py:147-154 | for each tier rate, its text is a key, parses back to the rate, and the threshold fallback gives that same key |
| Chart.UsbVersionChart.constructor | cord_id_monitor/src/cord_id_monitor/ui.py:136-169 | no node is active |
| Chart.UsbVersionChart.SetActiveSpeed | cord_id_monitor/src/cord_id_monitor/ui.py:171-193 | the reset loop clears every node, then exactly the chosen node, if any, is lit: at most one is active |
| Monitoring.ObserveReading | cord_id_monitor/src/cord_id_monitor/ui.py:345-361 | the stored maximum becomes the larger of the old maximum and the reading; only this identity's entry changes |
| Monitoring.Observe | cord_id_monitor/src/cord_id_monitor/ui.py:345-346 | a reading int() rejects leaves the history as it was, saves nothing and flags no downgrade |
| Monitoring.ObserveUnseen | cord_id_monitor/src/cord_id_monitor/ui.py:349-351 | a first reading is stored, saved and not a downgrade |
| Monitoring.ObserveMaxNeverDecreases | cord_id_monitor/src/cord_id_monitor/ui.py:349-357 | no stored maximum decreases; other identities are untouched; an entry changes, and is saved, exactly when the reading is strictly greater |
| Monitoring.DowngradeIffBelowMax | cord_id_monitor/src/cord_id_monitor/ui.py:357-361 | a downgrade is flagged exactly when the reading is below the maximum recorded before it |
| Monitoring.ObserveAllKeepsRunningMax | cord_id_monitor/src/cord_id_monitor/ui.py:349-357 | after a run of readings the stored value is the largest of them and of what was stored before |
| Monitoring.DowngradeAgainstHistoricalMax | cord_id_monitor/src/cord_id_monitor/ui.py:357-361 | a reading is a downgrade exactly when it is below the fastest earlier reading, not only the previous one |
| Monitoring.DowngradeScenario | cord_id_monitor/src/cord_id_monitor/ui.py:349-361 | 100 then 50 is a downgrade; 80 next still is; 200 is not and becomes the maximum |
| Monitoring.HistoryTextUsesMbps | cord_id_monitor/src/cord_id_monitor/ui.py:362 | formatting str(known_max) takes format_speed's integer branches |
| Monitoring.HistoryText | cord_id_monitor/src/cord_id_monitor/ui.py:362-363 | the history sentence itself; HistoryTextUsesMbps shows the maximum is rendered by format_speed's integer branches |
| Monitoring.DowngradeMessage | cord_id_monitor/src/cord_id_monitor/ui.py:362-368 | every tooltip wording ends with the sentence naming the fastest recorded speed |
| Monitoring.SpeedTextStart | cord_id_monitor/src/cord_id_monitor/ui.py:335 | the text of a numeric speed is non-empty and does not start with 'l' |
| Monitoring.LegacyMessageIff | cord_id_monitor/src/cord_id_monitor/ui.py:365-368 | the tooltip opens with the legacy USB 2.0 wording exactly in the legacy case (reading at most 480, maximum at least 5000), for any speed text that does not start with 'l' |
| Monitoring.HealthOf | cord_id_monitor/src/cord_id_monitor/ui.py:373-378 | the banner is revealed only for a flagged downgrade |
| Monitoring.ConnectedView | cord_id_monitor/src/cord_id_monitor/ui.py:330-395 | a connected panel shows a non-empty speed text and a non-empty caption (the caption falls back to "Negotiated Link Speed"), shows a numeric reading with its unit, and reveals the banner only for a flagged downgrade |
| Monitoring.BannerIffBelowMax | cord_id_monitor/src/cord_id_monitor/ui.py:345-378 | the banner is shown exactly when the speed parses and is below the stored maximum for this identity |
| Monitoring.MonitoringPage.constructor | cord_id_monitor/src/cord_id_monitor/ui.py:200-313 | the page shares the given history, has no target and a blank chart |
| Monitoring.MonitoringPage.UpdateView | cord_id_monitor/src/cord_id_monitor/ui.py:328-395 | connected: the history and save count follow the health check, the chart lights the speed's node, and the panel shows the formatted fields; disconnected: nothing changes |
| Monitoring.MonitoringPage.CheckHealth | cord_id_monitor/src/cord_id_monitor/ui.py:341-378 | the history and saves follow the health check, and the banner is the one it calls for |
| Monitoring.MonitoringPage.RecordReading | cord_id_monitor/src/cord_id_monitor/ui.py:349-361 | the history update stores a first or faster reading and saves then; returns the maximum the reading is compared with |
| Monitoring.MonitoringPage.SetTarget | cord_id_monitor/src/cord_id_monitor/ui.py:320-326 | the target becomes the device's identity, the title its friendly name, and the view is refreshed as connected |
| Monitoring.MonitoringPage.OnStopClicked | cord_id_monitor/src/cord_id_monitor/ui.py:316-318 | the target is forgotten; the history and its save count are kept |
| Recorder.DisplayName | cord_id_monitor/src/cord_id_monitor/ui.py:875-880 | a placeholder candidate for a known identity is replaced by the stored name; a real name is used as it is |
| Recorder.IsPlaceholder | cord_id_monitor/src/cord_id_monitor/ui.py:876 | the is_unknown_name test itself; UnreadableDeviceIsPlaceholder and the name lemmas are stated with it |
| Recorder.SpeedSet | cord_id_monitor/src/cord_id_monitor/ui.py:898-902 | a speed is recorded exactly when int() accepts it |
| Recorder.Upsert | cord_id_monitor/src/cord_id_monitor/ui.py:882-902 | afterwards the identity has an entry, other entries are untouched, and last_seen is now |
| Recorder.NameOverwrittenOnlyByRealName | cord_id_monitor/src/cord_id_monitor/ui.py:876-892 | a stored name changes only to a candidate that mentions neither "----:----" nor "Unknown" |
| Recorder.RealNameNeverDegrades | cord_id_monitor/src/cord_id_monitor/ui.py:876-892 | once a real name is stored, the stored name stays a real one |
| Recorder.StoredNameIsLoggedName | cord_id_monitor/src/cord_id_monitor/ui.py:878-918 | the registry stores the name the log entry shows; a new identity stores its own name |
| Recorder.SpeedsOnlyGrow | cord_id_monitor/src/cord_id_monitor/ui.py:898-902 | the speeds set only grows, and only by the parsed reading |
| Recorder.UnreadableDeviceIsPlaceholder | cord_id_monitor/src/cord_id_monitor/ui.py:876 | a device without vendor, model and ids is named "USB Device (----:----)", which counts as a placeholder |
| Recorder.RealNameSurvivesPlaceholderEvent | cord_id_monitor/src/cord_id_monitor/ui.py:876-902 | after a real name, a placeholder event with an unparsable speed keeps the name and the speeds, logs the stored name, and only moves last_seen |
| Recorder.PlaceholderEventKeepsEntry | cord_id_monitor/src/cord_id_monitor/ui.py:876-902 | a placeholder event with an unparsable speed leaves a known identity's entry as it was except for last_seen |
| Recorder.EventLabel | cord_id_monitor/src/cord_id_monitor/ui.py:905-908 | "Connected" exactly for add, "Disconnected" exactly for remove, "Changed" otherwise |
| Recorder.LogEntryFor | cord_id_monitor/src/cord_id_monitor/ui.py:915-922 | the entry carries the time, the shown name and the version |
| Recorder.LogEntrySpeed | cord_id_monitor/src/cord_id_monitor/ui.py:910-913 | a removal shows speed "-"; any other event shows the formatted speed |
| Recorder.LogEntryBus | cord_id_monitor/src/cord_id_monitor/ui.py:920 | the bus column starts with the bus number before the '-' |
| Window.FollowUpFor | cord_id_monitor/src/cord_id_monitor/ui.py:933-949 | the selection page re-lists exactly on add and remove; the monitoring page refreshes its own target as connected on add, bind and change, and as disconnected on remove and unbind |
| Window.OtherDevicesIgnoredWhileMonitoring | cord_id_monitor/src/cord_id_monitor/ui.py:943 | an event for any other device never touches the monitoring page |
| Window.PreviouslyMonitored | cord_id_monitor/src/cord_id_monitor/ui.py:832-842 | the left list is no longer than the device list and holds exactly the connected devices whose identity has a recorded maximum |
| Window.PreviouslyMonitoredAppend | cord_id_monitor/src/cord_id_monitor/ui.py:832-842 | the left list of two batches listed one after the other is the left list of the first followed by that of the second: the order of the devices is kept |
| Window.PreviouslyMonitoredSingle | cord_id_monitor/src/cord_id_monitor/ui.py:832-842 | one device is on the left list exactly when its identity has a recorded maximum |
| Window.FillLists | cord_id_monitor/src/cord_id_monitor/ui.py:832-842 | the loop fills the right list with every device and the left list with the previously monitored ones |
| Window.RecordSpeed | cord_id_monitor/src/cord_id_monitor/ui.py:898-902 | the speeds gain the reading exactly when int() accepts it, and nothing else |
| Window.MainWindow.constructor | cord_id_monitor/src/cord_id_monitor/ui.py:575-723 | with the loaded history, log and registry, the window starts on the selection page with the devices listed |
| Window.MainWindow.RefreshDevices | cord_id_monitor/src/cord_id_monitor/ui.py:805-848 | the devices are re-listed through the manager and split into all and previously monitored |
| Window.MainWindow.HandleDeviceEvent | cord_id_monitor/src/cord_id_monitor/ui.py:866-949 | the registry is upserted, exactly one log entry is appended, history is saved once, and the visible page follows up as routed |
| Window.MainWindow.RecordEvent | cord_id_monitor/src/cord_id_monitor/ui.py:872-931 | registry upsert, one appended log entry under the displayed name, and one save |
| Window.MainWindow.UpdateRegistry | cord_id_monitor/src/cord_id_monitor/ui.py:872-902 | the registry becomes the upsert, and the returned name is the one to display |
| Window.MainWindow.RenamedEntry | cord_id_monitor/src/cord_id_monitor/ui.py:875-896 | the name shown is the display name (a placeholder gives way to the stored name); the entry carries that name, the old speeds and last_seen = now |
| Window.MainWindow.AppendLog | cord_id_monitor/src/cord_id_monitor/ui.py:904-931 | exactly one entry is appended at the end, earlier entries are untouched, the history is saved once, and the registry and page are unchanged |
| Window.MainWindow.RouteEvent | cord_id_monitor/src/cord_id_monitor/ui.py:933-949 | the follow-up is the routing decision, and only the page it names changes |
| Window.MainWindow.OnMonitorClicked | cord_id_monitor/src/cord_id_monitor/ui.py:850-856 | the left selection wins over the right one; with a selection the page targets that device, runs its health check (history and page saves) and lights its chart node, and the page becomes visible; the window's registry, log and own save count are unchanged; without a selection nothing changes |
| Window.MainWindow.Monitor | cord_id_monitor/src/cord_id_monitor/ui.py:855-856 | the monitoring page targets the device and is shown; its history and saves follow the health check of the device's speed and the chart lights its node; the window's registry, log and own save count are unchanged |
| Window.MainWindow.StopMonitoring | cord_id_monitor/src/cord_id_monitor/ui.py:858-860 | the selection page is shown and the devices are re-listed: the manager's maps become the enumeration folds and no event is dispatched; the window's registry, log and own save count are unchanged |
| Window.MainWindow.OnStopClicked | cord_id_monitor/src/cord_id_monitor/ui.py:316-318 | the stop button forgets the page's target, keeps the history and page saves, returns to the selection page and re-lists the devices through the manager; the window's registry, log and own save count are unchanged |
| Text.StripBy | src/cord_id_monitor/utils.py:46 | the text is blanks, then the result, then blanks; the result neither starts nor ends with a blank; text without surrounding blanks is kept |
| Text.StripUnique | src/cord_id_monitor/utils.py:46 | any split into blanks, a middle with non-blank ends, and blanks has that middle as its stripped text, so the stripped text is determined by those properties |
| Text.StripByWithin | src/cord_id_monitor/utils.py:46 | stripping only removes characters |
| Text.ReplaceUnderscores | src/cord_id_monitor/core.py:76 | replace('_', ' ') keeps the length and turns each '_' into ' ' and nothing else |
| Text.ReplaceUnderscoresRemovesAll | src/cord_id_monitor/core.py:76 | replace('_', ' ') leaves no underscore |
| Text.Contains | cord_id_monitor/src/cord_id_monitor/ui.py:876 | Python's substring test `in`; used by IsPlaceholder |
| Text.ParseIntNeedsDigit | src/cord_id_monitor/utils.py:11-14 | int() rejects text without a digit |
| Text.ParseInt | src/cord_id_monitor/utils.py:11-14 | int() itself; ParseIntNeedsDigit, ParseIntOfIntToString and EmptyAndNotAvailableAreNotNumbers state what it accepts |
| Text.ParseSignedNeedsDigit | src/cord_id_monitor/utils.py:11-14 | a stripped literal without a digit is rejected |
| Text.EmptyAndNotAvailableAreNotNumbers | src/cord_id_monitor/utils.py:8-14 | int() rejects "" and "N/A" |
| Text.ParseIntOfIntToString | cord_id_monitor/src/cord_id_monitor/ui.py:362 | int(str(n)) == n |
| Text.IntToString | cord_id_monitor/src/cord_id_monitor/ui.py:362 | str() of an integer; ParseIntOfIntToString shows int() reads it back |
| Text.Split | src/cord_id_monitor/utils.py:95 | split('.') yields at least one piece and no piece contains the separator |
| Text.JoinSplit | src/cord_id_monitor/utils.py:95-96 | joining the pieces of split('.') gives the text back |
| Text.SplitJoin | src/cord_id_monitor/utils.py:95-96 | splitting a join of separator-free pieces gives the pieces back |

## Left out

- Reading sysfs attributes and the udev-property fallback (`_read_sysfs_attr`) are I/O. The snapshot takes `speed`, `version` and `max_power` as already-read strings.
- pyudev enumeration and polling, the monitoring thread, its `running` flag, `start_monitoring`/`stop_monitoring` of the manager, the sleep after an error and the exception-swallowing loop are concurrency and foreign calls. The enumeration is an input sequence, and each polled device is one `Step`.
- `GLib.idle_add` marshalling is left out: each event is handled as one sequential `HandleDeviceEvent`.
- `UpdateChecker.check_for_updates` is left out, since it is an HTTP request on a background thread. Only `_is_newer` is modelled.
- `load_history`/`save_history` are JSON file I/O. The window's constructor takes the already-loaded history, log and registry. Saving is a ghost counter on the window (its own saves) and on the page (`save_callback`).
- The main window's capability map and the page's `history_cache` are the same Python dict. The model keeps one map, on the page.
- GTK widgets, CSS, the history window, labels, tooltips and opacity are presentation. Only the values shown are modelled (`Dashboard`, `Health`, the two lists, the visible page).
- `datetime.now()` is a clock: the time stamp is a parameter `now`.
- Prints and logging.
- `do_shutdown` is indented inside `handle_device_event`, so it is a local function that is never called. It has no effect and is not modelled.
- Utils.FormatMbps: the `f"{mbps/1000:g} Gbps"` branch is exact only for `1000 <= mbps < 1000000`. Above that, `:g` rounds to six significant digits and later switches to exponent notation, and the model does not reproduce this. From about 1.8·10^311 Mbps the float division `mbps/1000` raises `OverflowError`, which the model does not reproduce either: the model always returns a " Gbps" text.
- Window.MainWindow.HandleDeviceEvent: for a speed of about 1.8·10^311 Mbps or more, the source's `format_speed` raises `OverflowError` after the registry update, so no log entry is added, nothing is saved and no page follows up. The model always appends the entry, saves once and routes the event.
- Monitoring.MonitoringPage.UpdateView: for such a speed the source stops at `format_speed`, before the health check, the chart and the labels. The model always completes the update. Kernel link speeds are far below this bound.
- Text.ParseInt: `int()` also accepts non-ASCII decimal digits. The model accepts ASCII digits only.
- Text.ParseInt: since Python 3.11, `int()` rejects a literal of more than 4300 digits (`sys.get_int_max_str_digits()`). The model has no digit limit and accepts such a literal.
- Utils.FormatMbpsWholeGbps: stated only below 10^9 Mbps, because from there `:g` prints exponent notation (`1e+06 Gbps`).
- Core.DeviceManager.Step: requires a fresh snapshot (no override), as every snapshot built by `USBDevice.__init__` is.
- The listener callback is always registered in the application, so `Step` always dispatches.
- An exception that reaches the monitor loop is left out, since none can occur in the modelled body.
