# Device monitor: simulator and aggregation model

This project models the core of a small network-device monitoring
service in Dafny. It has two parts.

- **The device simulator** (`deviceSimulator.js`). It holds three devices.
  On each tick every device may flip between online and offline. An online
  device's bandwidth takes a clamped random walk; an offline device's
  bandwidth is 0. The simulator keeps the status it last reported for each
  device. A tick emits one `statusChange` event for every device whose
  status differs from that recorded status, then one `snapshot` of all
  devices. `forceStatus` overrides a device's status directly.
- **The server's aggregation state** (`server.js`):
  - a per-device history of `{ts, status, bandwidth}` samples, capped at
    200 per device, oldest evicted first;
  - a log of status changes, capped at 1000 entries, with level `alert`
    for a change to offline and `info` otherwise;
  - the two handlers that fill them;
  - the history, logs and force endpoints, and the socket `getHistory`
    request.

Files:

- `buffers.dfy` (module `Buffers`): the bounded push-then-shift buffer
  used for both histories and the log. It proves that such a buffer always
  holds the newest `cap` elements it was given.
- `simulation.dfy` (module `Simulation`): the `DeviceSimulator` class. Its
  two arrays are updated in place: `devices` and `prevStatuses`, the
  recorded statuses. It also holds the pure functions that specify a tick
  and a force, and the lemmas about the events a tick emits.
- `monitor.dfy` (module `Monitor`): the `Server` class. Its fields are
  `history` (a map from device id to samples) and `logs`. It also holds the
  functions that replay a stream of events into those fields, and the
  window lemmas about them.

Modelling conventions:

- **Randomness.** Every random number a device consumes in one tick is an
  input, a `Draw`: whether it flips, the walk step, and the resample value.
  `ValidDraw` restricts each one to the range the source's arithmetic can
  produce.
- **The clock.** `Date.now()` is a parameter `now`.
- **Bandwidth** is a natural number of tenths of a Mbps. The source rounds
  every bandwidth to one decimal, so tenths represent it exactly: the
  initial 12, 30 and 5 Mbps are 120, 300 and 50.
  - A walk step lies in −50..50.
  - A walk result below 0 is clamped to 0.
  - A result below 10 (1.0 Mbps) is replaced by a resample in 10..60.
- **Emitted events** are returned by `Tick` as an ordered list.
  `Server.Dispatch` hands them to the two handlers in that order. The
  emitter in the source calls its listeners synchronously in emission
  order, so this gives the same result.
- **Falsy timestamps.** `timestamp || Date.now()` treats a zero timestamp
  as missing (`StampOrNow`).

Behaviour of the code that a reader might not expect:

- One might expect `forceStatus` to reset the recorded previous status. It
  does not. So when a force changes a device's status, the next tick
  reports that change: the old status is the one from before the force,
  and the timestamp is the tick's. The one exception is when the device
  flips back on that same tick; then nothing is reported for it.
  `ForcedChangeReportedNextTick` proves both cases.
- Forcing a device online keeps its bandwidth, which is 0 if it was
  offline, until the next tick walks it.
- The log level is `alert` for a change to offline and `info` for a change
  to online. There is no further severity tiering.
- The log message names the device's `ip`.

## Model

| member | source | states |
|---|---|---|
| Buffers.Window | server.js:36 | the newest `cap` entries of a sequence, oldest first: its length is `min(len, cap)` and it is a suffix of the sequence |
| Buffers.Push | server.js:69-70 | push then shift-once: the pushed element is last, the length grows by at most one and never past `cap`, and below `cap` it is a plain append; the result is a suffix of `buf + [x]` |
| Buffers.PushAll | server.js:67-71 | pushing a list of elements one by one never takes a buffer that starts within `cap` past `cap` |
| Buffers.PushWindow | server.js:83-84 | pushing onto the window of a stream equals the window of the stream extended by that element: exactly the oldest element is dropped |
| Buffers.PushAllWindow | server.js:67-71 | a capped buffer fed from any window holds exactly the newest `cap` of all elements it has been given |
| Simulation.Flip | deviceSimulator.js:22 | toggling always changes the status |
| Simulation.Walk | deviceSimulator.js:25-30 | an online device's new bandwidth is at least 1.0 Mbps; it is old + step when that is at least 1.0, and otherwise the resample |
| Simulation.Step | deviceSimulator.js:19-33 | one device's update: id, name and ip kept; the status flips exactly when drawn; offline if and only if bandwidth 0; online implies at least 1.0 Mbps |
| Simulation.StepAll | deviceSimulator.js:18-33 | every device stepped by its own draw: the same number of devices, offline ones idle; identities, distinct ids and the floor are carried by `StepAllKeepsDevices` |
| Simulation.StepAllKeepsDevices | deviceSimulator.js:18-33 | after the loop, the devices keep their identities and order, ids stay distinct, offline devices are idle and online ones at or above the floor |
| Simulation.ChangesUpTo | deviceSimulator.js:36-46 | at most `k` status changes for the first `k` devices; which ones, and their order, are carried by `ChangesAreGenuine`, `ChangesNameChangedDevices` and `ChangesInDeviceOrder` |
| Simulation.TickEvents | deviceSimulator.js:16-50 | everything a tick emits: between 1 and n+1 events, the last being the snapshot of the stepped devices; its changes are characterised by `TickChangeEvents` and `TickEndsWithSnapshot` |
| Simulation.ChangesAreGenuine | deviceSimulator.js:36-46 | every emitted change is between two different statuses and carries the tick's time; every device whose status differs from its recorded one has its change emitted |
| Simulation.ChangesNameChangedDevices | deviceSimulator.js:36-46 | with distinct ids, no emitted change names a device whose status equals its recorded one, nor a device at or past `k` |
| Simulation.ChangesAreOfChangedDevices | deviceSimulator.js:36-46 | every emitted change is the change, from the recorded status to the new one, of some device below `k` whose status differs: nothing else is emitted |
| Simulation.ChangesInDeviceOrder | deviceSimulator.js:18-46 | changes are emitted in device order, at most one per device |
| Simulation.UnchangedReportsNothing | deviceSimulator.js:36 | when no device's status differs from its recorded one, no change is emitted |
| Simulation.TickEndsWithSnapshot | deviceSimulator.js:16-50 | a tick emits between 1 and n+1 events: status changes stamped with the tick time, then exactly one snapshot of the updated devices, last |
| Simulation.TickChangeEvents | deviceSimulator.js:36-46 | a device's change (with the recorded status as the old one) is emitted if and only if its new status differs from the recorded one; the changes follow device order |
| Simulation.TickReportsOnlyChanges | deviceSimulator.js:36-46 | everything a tick emits before its snapshot is the change of some device whose new status differs from its recorded one; together with `TickChangeEvents`, a tick's changes are exactly those of the changed devices |
| Simulation.SteadyTickWithoutFlipsIsQuiet | deviceSimulator.js:18-49 | when the recorded statuses are in step and nothing flips, the tick emits the snapshot alone |
| Simulation.Find | deviceSimulator.js:59 | the first position holding the id, or none when no device has it |
| Simulation.ForceAt | deviceSimulator.js:61-62 | the forced device keeps its identity and takes the new status, with bandwidth 0 when offline and unchanged when online |
| Simulation.Forced | deviceSimulator.js:58-64 | the device with the id gets the new status, bandwidth 0 when offline, unchanged when online; every other device and every identity is unchanged |
| Simulation.ForcedChangeReportedNextTick | deviceSimulator.js:58-64 | a forced status change is reported by the next tick, from the pre-force status to the forced one, unless the device flips back on that tick, in which case nothing is reported for it |
| Simulation.DeviceSimulator.constructor | deviceSimulator.js:4-13 | the three initial devices, all online, with the recorded statuses equal to their statuses |
| Simulation.DeviceSimulator.GetDevices | deviceSimulator.js:52-55 | a copy of the devices, element for element |
| Simulation.DeviceSimulator.Advance | deviceSimulator.js:19-33 | the in-place flip, walk, floor and zeroing of one device compute `Step` |
| Simulation.DeviceSimulator.AdvanceAt | deviceSimulator.js:19-46 | one loop iteration: updates device `i`, syncs its recorded status, leaves every other slot alone, and returns the change event exactly when the status differs |
| Simulation.DeviceSimulator.AdvanceDevices | deviceSimulator.js:18-47 | the loop updates every device by `Step`, syncs every recorded status, and returns the change events in emission order |
| Simulation.DeviceSimulator.Tick | deviceSimulator.js:16-50 | the new devices are the stepped old ones, the recorded statuses equal the new statuses, the invariant is kept, and the events are those of `TickEvents` |
| Simulation.DeviceSimulator.ForceStatus | deviceSimulator.js:58-64 | returns true if and only if a device has the id; the devices become `Forced(...)`; the recorded statuses are untouched |
| Monitor.StampOrNow | server.js:65 | a nonzero timestamp is kept; a zero one is replaced by the clock |
| Monitor.ParseStatus | server.js:42 | accepts exactly "online" and "offline", and the parsed status prints back as the input |
| Monitor.LogEntryFor | server.js:77-82 | level alert if and only if the change is to offline; the entry carries the device id, the change's timestamp (or the clock) and the `name (ip) changed: old → new` message |
| Monitor.ApplySamples | server.js:67-71 | recording a snapshot loses no device's history and keeps every history within 200 samples |
| Monitor.ApplySamplesKeys | server.js:68 | a snapshot creates a history for exactly the ids it lists and for no other id |
| Monitor.HistoryOfSnapshot | server.js:67-71 | a snapshot pushes onto each device's history exactly that device's samples, in snapshot order |
| Monitor.SnapshotAppendsEachDevice | server.js:67-71 | with distinct ids, a snapshot appends exactly one `{ts, status, bandwidth}` sample to each listed device's history (oldest evicted beyond 200) and leaves what every other id looks up unchanged; `ApplySamplesKeys` adds that no other id gains a history |
| Monitor.ForcedOfflineRecordedIdle | server.js:64-71 | a device forced offline that does not flip on the next tick is recorded by that tick's snapshot as offline with bandwidth 0 |
| Monitor.RecordEvent | server.js:64-71 | handling one event loses no history and keeps every history within 200 samples; a status change leaves the histories unchanged |
| Monitor.LogEvent | server.js:76-84 | handling one event keeps the log within 1000 entries; a snapshot leaves it unchanged, and a status change puts its entry last |
| Monitor.ReplayHistory | server.js:64-71 | handling a sequence of events loses no history and keeps every history within 200 samples; contents are carried by `HistoryIsWindowOfSamples` |
| Monitor.ReplayLogs | server.js:76-84 | handling a sequence of events keeps the log within 1000 entries; contents are carried by `LogIsWindowOfEntries` |
| Monitor.ReplayKeepsKeys | server.js:68 | events whose snapshots list only ids that already have a history create no new history |
| Monitor.TickSnapshotsWithin | deviceSimulator.js:49 | a tick's snapshot lists only the ids of the devices the tick started with |
| Monitor.HistoryIsWindowOfSamples | server.js:64-71 | after any sequence of events, a device's history is the newest 200 samples ever delivered for it, in delivery order |
| Monitor.LogIsWindowOfEntries | server.js:76-84 | after any sequence of events, the log is the newest 1000 entries derived from the delivered status changes, in delivery order |
| Monitor.Server.constructor | server.js:16-21 | an empty history for exactly the simulator's device ids, and an empty log |
| Monitor.Server.OnSnapshot | server.js:64-71 | the loop that creates missing histories, pushes and shifts leaves the histories equal to `ApplySamples` of the old ones, with the log untouched |
| Monitor.Server.RecordSample | server.js:68-70 | one loop iteration: the device's history becomes the capped push of its sample onto its old history (empty if missing); every other history and the log are unchanged |
| Monitor.Server.OnStatusChange | server.js:76-84 | the log becomes the capped push of the change's entry; the histories are untouched |
| Monitor.Server.Dispatch | server.js:64-86 | handling a tick's events in order leaves the histories and the log equal to their replays over those events |
| Monitor.Server.Poll | server.js:89-90 | one polling interval: a tick whose events reach both handlers; the devices are stepped, the recorded statuses equal the new statuses, no history is created or lost, and the histories and log are the replays of the tick's events |
| Monitor.Server.RestHistory | server.js:28-32 | not found if and only if the id has no history; otherwise the id and its samples |
| Monitor.Server.SocketHistory | server.js:54-60 | the id's samples, or an empty list for an unknown id |
| Monitor.Server.RecentLogs | server.js:34-37 | the newest 200 log entries, oldest first |
| Monitor.Server.Force | server.js:40-46 | a status other than online/offline is refused and nothing changes; otherwise the simulator's devices become `Forced(...)`, and the reply is not found if and only if no device has the id |

## Left out

- The HTTP server, Express routing, JSON bodies and status codes are not modelled: replies are datatypes.
- Socket.IO connections and broadcasts (`deviceSnapshot`, `log`, and the snapshot and logs sent on connect) are not modelled. The logs sent on connect are the same `RecentLogs` value.
- `GET /api/devices` is not modelled separately: it is `GetDevices` plus the clock.
- The `setInterval` timer is left out: each firing is one call to `Server.Poll`.
- `Math.random` is left out: its values are the `Draw` inputs.
- Floating point is left out: bandwidth is exact tenths. A walk step's rounding is assumed to land in −50..50 tenths.
- Simulation.DeviceSimulator.ForceStatus: takes a `Status` rather than any string. Its only caller, the force endpoint, refuses every other string first (`Monitor.ParseStatus`).
- Inherited object keys of the JavaScript `history` object (such as `constructor`) are not modelled. With those keys, `history[id]` can be truthy for an id that was never stored.
- A timestamp that is `NaN` or otherwise falsy but nonzero cannot arise from `Date.now()` and is not modelled.
- Duplicate device ids cannot arise from the fixed initial devices. They are excluded by the simulator's invariant instead of being modelled.
- The browser client (`public/app.js`) is not part of this model.
- `simulator/device.js` is not part of this model.
