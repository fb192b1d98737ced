/** The aggregation state of server.js: the per-device history of samples
    (at most 200 each) and the log of status changes (at most 1000), the
    two simulator handlers that fill them, and the query and command
    handlers that read them or drive the simulator. Responses are return
    values; the HTTP and socket transport is not modelled. The clock is a
    parameter `now`. */
module Monitor {
  import opened Simulation
  import opened Buffers

  /** Samples kept per device (`MAX_HISTORY`). */
  const MaxHistory: nat := 200
  /** Log entries kept. */
  const MaxLogs: nat := 1000
  /** Log entries handed out by the logs query and on connection (`logs.slice(-200)`). */
  const RecentLogCount: nat := 200

  datatype Sample = Sample(ts: int, status: Status, bandwidth: nat)
  datatype Level = Info | Alert
  datatype LogEntry = LogEntry(ts: int, level: Level, message: string, deviceId: string)

  /** Reply of `GET /api/history/:deviceId`: 404, or the id and its samples. */
  datatype HistoryReply = HistoryNotFound | HistoryFound(deviceId: string, samples: seq<Sample>)
  /** Reply of `POST /api/force/:deviceId/:status`: 400, 404, or success. */
  datatype ForceReply = BadStatus | DeviceNotFound | ForceApplied(deviceId: string, status: string)

  /** `timestamp || Date.now()`: a zero timestamp is falsy and replaced by the clock. */
  function StampOrNow(timestamp: int, now: int): (ts: int)
    ensures timestamp != 0 ==> ts == timestamp
    ensures timestamp == 0 ==> ts == now
  {
    if timestamp != 0 then timestamp else now
  }

  /** The status check of the force command: only "online" and "offline" pass. */
  function ParseStatus(s: string): (r: Option<Status>)
    ensures r.Some? <==> (s == "online" || s == "offline")
    ensures r.Some? ==> StatusName(r.value) == s
  {
    if s == "online" then Some(Online)
    else if s == "offline" then Some(Offline)
    else None
  }

  /** The log entry recorded for a status change. */
  function LogEntryFor(c: StatusChange, now: int): (e: LogEntry)
    ensures e.ts == StampOrNow(c.timestamp, now)
    ensures e.level == Alert <==> c.newStatus == Offline
    ensures e.deviceId == c.id
    ensures e.message == c.name + " (" + c.ip + ") changed: " +
                         StatusName(c.oldStatus) + " → " + StatusName(c.newStatus)
  {
    LogEntry(StampOrNow(c.timestamp, now),
             if c.newStatus == Offline then Alert else Info,
             c.name + " (" + c.ip + ") changed: " + StatusName(c.oldStatus) + " → " + StatusName(c.newStatus),
             c.id)
  }

  function IdsOf(devs: seq<Device>): set<string>
  {
    set d | d in devs :: d.id
  }

  /** Every history holds at most `MaxHistory` samples. */
  predicate Bounded(h: map<string, seq<Sample>>)
  {
    forall id :: id in h ==> |h[id]| <= MaxHistory
  }

  /** A device's history, empty when the id has none yet. */
  function Lookup(h: map<string, seq<Sample>>, id: string): seq<Sample>
  {
    if id in h then h[id] else []
  }

  function SampleOf(d: Device, ts: int): Sample
  {
    Sample(ts, d.status, d.bandwidth)
  }

  /** The histories after one snapshot: each listed device, in order,
      gets its sample pushed, its history being created empty if missing. */
  function ApplySamples(h: map<string, seq<Sample>>, devs: seq<Device>, ts: int): (r: map<string, seq<Sample>>)
    ensures h.Keys <= r.Keys
    ensures Bounded(h) ==> Bounded(r)
    decreases |devs|
  {
    if devs == [] then h
    else
      var d := devs[0];
      ApplySamples(h[d.id := Push(Lookup(h, d.id), SampleOf(d, ts), MaxHistory)], devs[1..], ts)
  }

  lemma ApplySamplesStep(h: map<string, seq<Sample>>, devs: seq<Device>, k: nat, ts: int)
    requires k < |devs|
    ensures ApplySamples(h, devs[k..], ts) ==
            ApplySamples(h[devs[k].id := Push(Lookup(h, devs[k].id), SampleOf(devs[k], ts), MaxHistory)], devs[k + 1..], ts)
  {
    assert devs[k..][0] == devs[k] && devs[k..][1..] == devs[k + 1..];
  }

  /** A snapshot adds a history for exactly the ids it lists: every other
      id stays without one, so the history query keeps answering not
      found for it. */
  lemma {:induction false} ApplySamplesKeys(h: map<string, seq<Sample>>, devs: seq<Device>, ts: int)
    ensures ApplySamples(h, devs, ts).Keys == h.Keys + IdsOf(devs)
    decreases |devs|
  {
    if devs != [] {
      var d := devs[0];
      ApplySamplesKeys(h[d.id := Push(Lookup(h, d.id), SampleOf(d, ts), MaxHistory)], devs[1..], ts);
      assert IdsOf(devs) == {d.id} + IdsOf(devs[1..]) by {
        assert devs == [d] + devs[1..];
      }
    }
  }

  /** The samples a snapshot contributes to the device `id`, in order. */
  function SamplesFor(devs: seq<Device>, id: string, ts: int): seq<Sample>
    decreases |devs|
  {
    if devs == [] then []
    else (if devs[0].id == id then [SampleOf(devs[0], ts)] else []) + SamplesFor(devs[1..], id, ts)
  }

  /** One snapshot pushes onto each device's history exactly the samples
      of that device, in snapshot order. */
  lemma {:induction false} HistoryOfSnapshot(h: map<string, seq<Sample>>, devs: seq<Device>, ts: int, id: string)
    ensures Lookup(ApplySamples(h, devs, ts), id) == PushAll(Lookup(h, id), SamplesFor(devs, id, ts), MaxHistory)
    decreases |devs|
  {
    if devs != [] {
      var d := devs[0];
      var h1 := h[d.id := Push(Lookup(h, d.id), SampleOf(d, ts), MaxHistory)];
      HistoryOfSnapshot(h1, devs[1..], ts, id);
      var rest := SamplesFor(devs[1..], id, ts);
      if d.id == id {
        assert SamplesFor(devs, id, ts) == [SampleOf(d, ts)] + rest;
        PushAllCons(Lookup(h, id), SampleOf(d, ts), rest, MaxHistory);
      } else {
        assert SamplesFor(devs, id, ts) == rest;
      }
    }
  }

  lemma {:induction false} SamplesForAbsent(devs: seq<Device>, id: string, ts: int)
    requires forall j :: 0 <= j < |devs| ==> devs[j].id != id
    ensures SamplesFor(devs, id, ts) == []
    decreases |devs|
  {
    if devs != [] {
      SamplesForAbsent(devs[1..], id, ts);
    }
  }

  lemma {:induction false} SamplesForDistinct(devs: seq<Device>, i: nat, ts: int)
    requires DistinctIds(devs) && i < |devs|
    ensures SamplesFor(devs, devs[i].id, ts) == [SampleOf(devs[i], ts)]
    decreases |devs|
  {
    if i == 0 {
      SamplesForAbsent(devs[1..], devs[0].id, ts);
    } else {
      assert devs[0].id != devs[i].id;
      assert devs[1..][i - 1] == devs[i];
      SamplesForDistinct(devs[1..], i - 1, ts);
    }
  }

  /** With distinct ids (as every simulator snapshot has), a snapshot
      appends exactly one sample `{ts, status, bandwidth}` to the history
      of each listed device, evicting the oldest beyond 200, and leaves
      every other history alone. */
  lemma SnapshotAppendsEachDevice(h: map<string, seq<Sample>>, devs: seq<Device>, ts: int)
    requires DistinctIds(devs)
    ensures forall i :: 0 <= i < |devs| ==>
      Lookup(ApplySamples(h, devs, ts), devs[i].id) ==
      Push(Lookup(h, devs[i].id), SampleOf(devs[i], ts), MaxHistory)
    ensures forall id :: id !in IdsOf(devs) ==> Lookup(ApplySamples(h, devs, ts), id) == Lookup(h, id)
  {
    forall i | 0 <= i < |devs|
      ensures Lookup(ApplySamples(h, devs, ts), devs[i].id) ==
              Push(Lookup(h, devs[i].id), SampleOf(devs[i], ts), MaxHistory)
    {
      HistoryOfSnapshot(h, devs, ts, devs[i].id);
      SamplesForDistinct(devs, i, ts);
      var x := SampleOf(devs[i], ts);
      assert [x][1..] == [];
    }
    forall id | id !in IdsOf(devs)
      ensures Lookup(ApplySamples(h, devs, ts), id) == Lookup(h, id)
    {
      HistoryOfSnapshot(h, devs, ts, id);
      forall j | 0 <= j < |devs|
        ensures devs[j].id != id
      {
        assert devs[j] in devs;
      }
      SamplesForAbsent(devs, id, ts);
    }
  }

  /** A device forced offline that does not flip on the next tick is
      recorded by that tick's snapshot as offline with bandwidth 0. */
  lemma ForcedOfflineRecordedIdle(h: map<string, seq<Sample>>, pre: seq<Device>, draws: seq<Draw>,
                                  i: nat, ts: int)
    requires |pre| == |draws| && ValidDraws(draws) && DistinctIds(pre)
    requires i < |pre| && !draws[i].flip
    ensures Lookup(ApplySamples(h, StepAll(Forced(pre, pre[i].id, Offline), draws), ts), pre[i].id) ==
            Push(Lookup(h, pre[i].id), Sample(ts, Offline, 0), MaxHistory)
  {
    var forced := Forced(pre, pre[i].id, Offline);
    StepAllKeepsDevices(forced, draws);
    var post := StepAll(forced, draws);
    assert post[i] == Step(forced[i], draws[i]);
    SnapshotAppendsEachDevice(h, post, ts);
  }

  /** The histories after the server has handled one event (a status
      change leaves them alone). */
  function RecordEvent(h: map<string, seq<Sample>>, e: Event, now: int): (r: map<string, seq<Sample>>)
    ensures h.Keys <= r.Keys
    ensures Bounded(h) ==> Bounded(r)
    ensures e.Change? ==> r == h
  {
    match e
    case Snap(s) => ApplySamples(h, s.devices, StampOrNow(s.timestamp, now))
    case Change(_) => h
  }

  /** The log after the server has handled one event (a snapshot leaves
      it alone). */
  function LogEvent(logs: seq<LogEntry>, e: Event, now: int): (r: seq<LogEntry>)
    ensures |logs| <= MaxLogs ==> |r| <= MaxLogs
    ensures e.Snap? ==> r == logs
    ensures e.Change? ==> |r| > 0 && r[|r| - 1] == LogEntryFor(e.change, now)
  {
    match e
    case Change(c) => Push(logs, LogEntryFor(c, now), MaxLogs)
    case Snap(_) => logs
  }

  /** The samples one event carries for device `id`. */
  function EventSamples(e: Event, id: string, now: int): seq<Sample>
  {
    match e
    case Snap(s) => SamplesFor(s.devices, id, StampOrNow(s.timestamp, now))
    case Change(_) => []
  }

  /** The log entries one event produces. */
  function EventEntries(e: Event, now: int): seq<LogEntry>
  {
    match e
    case Change(c) => [LogEntryFor(c, now)]
    case Snap(_) => []
  }

  /** The histories after the server has handled `events` in order. */
  function ReplayHistory(h: map<string, seq<Sample>>, events: seq<Event>, now: int): (r: map<string, seq<Sample>>)
    ensures h.Keys <= r.Keys
    ensures Bounded(h) ==> Bounded(r)
    decreases |events|
  {
    if events == [] then h else ReplayHistory(RecordEvent(h, events[0], now), events[1..], now)
  }

  /** The log after the server has handled `events` in order. */
  function ReplayLogs(logs: seq<LogEntry>, events: seq<Event>, now: int): (r: seq<LogEntry>)
    ensures |logs| <= MaxLogs ==> |r| <= MaxLogs
    decreases |events|
  {
    if events == [] then logs else ReplayLogs(LogEvent(logs, events[0], now), events[1..], now)
  }

  /** Every snapshot among `events` lists only ids in `keys`. */
  predicate SnapshotsWithin(events: seq<Event>, keys: set<string>)
  {
    forall a :: 0 <= a < |events| && events[a].Snap? ==> IdsOf(events[a].snapshot.devices) <= keys
  }

  /** Events whose snapshots list only known ids create no history. */
  lemma {:induction false} ReplayKeepsKeys(h: map<string, seq<Sample>>, events: seq<Event>, now: int)
    requires SnapshotsWithin(events, h.Keys)
    ensures ReplayHistory(h, events, now).Keys == h.Keys
    decreases |events|
  {
    if events != [] {
      if events[0].Snap? {
        var s := events[0].snapshot;
        ApplySamplesKeys(h, s.devices, StampOrNow(s.timestamp, now));
      }
      var h1 := RecordEvent(h, events[0], now);
      assert h1.Keys == h.Keys;
      forall a | 0 <= a < |events| - 1 && events[1..][a].Snap?
        ensures IdsOf(events[1..][a].snapshot.devices) <= h1.Keys
      {
        assert events[1..][a] == events[a + 1];
      }
      ReplayKeepsKeys(h1, events[1..], now);
    }
  }

  /** A tick's snapshot lists only the ids of the devices it started with. */
  lemma TickSnapshotsWithin(pre: seq<Device>, prev: seq<Status>, draws: seq<Draw>, now: int, keys: set<string>)
    requires |pre| == |prev| == |draws| && ValidDraws(draws)
    requires forall i :: 0 <= i < |pre| ==> pre[i].id in keys
    ensures SnapshotsWithin(TickEvents(pre, prev, draws, now), keys)
  {
    TickEndsWithSnapshot(pre, prev, draws, now);
    var post := StepAll(pre, draws);
    forall d | d in post
      ensures d.id in keys
    {
      var i :| 0 <= i < |post| && post[i] == d;
      assert post[i] == Step(pre[i], draws[i]);
    }
  }

  /** Every sample the events carry for device `id`, oldest first. */
  function SampleTrace(events: seq<Event>, id: string, now: int): seq<Sample>
    decreases |events|
  {
    if events == [] then [] else EventSamples(events[0], id, now) + SampleTrace(events[1..], id, now)
  }

  /** Every log entry the events produce, oldest first. */
  function EntryTrace(events: seq<Event>, now: int): seq<LogEntry>
    decreases |events|
  {
    if events == [] then [] else EventEntries(events[0], now) + EntryTrace(events[1..], now)
  }

  lemma RecordEventWindow(h: map<string, seq<Sample>>, e: Event, now: int, id: string, t: seq<Sample>)
    requires Lookup(h, id) == Window(t, MaxHistory)
    ensures Lookup(RecordEvent(h, e, now), id) == Window(t + EventSamples(e, id, now), MaxHistory)
  {
    match e
    case Snap(s) =>
      var ts := StampOrNow(s.timestamp, now);
      HistoryOfSnapshot(h, s.devices, ts, id);
      PushAllWindow(t, SamplesFor(s.devices, id, ts), MaxHistory);
    case Change(_) =>
      assert t + [] == t;
  }

  lemma LogEventWindow(logs: seq<LogEntry>, e: Event, now: int, t: seq<LogEntry>)
    requires logs == Window(t, MaxLogs)
    ensures LogEvent(logs, e, now) == Window(t + EventEntries(e, now), MaxLogs)
  {
    match e
    case Change(c) =>
      PushWindow(t, LogEntryFor(c, now), MaxLogs);
    case Snap(_) =>
      assert t + [] == t;
  }

  /** Regrouping a concatenation; stated once so that the window proofs
      below do not unfold sequence equality in their own, larger context. */
  lemma ConcatAssoc<T>(a: seq<T>, b: seq<T>, c: seq<T>)
    ensures a + b + c == a + (b + c)
  {
  }

  /** A device's history is always the last (at most) 200 samples ever
      delivered for it, oldest first: FIFO eviction, no gaps, no
      reordering. Starting from an empty history, `t` is empty. */
  lemma {:induction false} HistoryIsWindowOfSamples(h: map<string, seq<Sample>>, events: seq<Event>, now: int,
                                                    id: string, t: seq<Sample>)
    requires Lookup(h, id) == Window(t, MaxHistory)
    ensures Lookup(ReplayHistory(h, events, now), id) == Window(t + SampleTrace(events, id, now), MaxHistory)
    decreases |events|
  {
    if events != [] {
      var head, tail := EventSamples(events[0], id, now), SampleTrace(events[1..], id, now);
      RecordEventWindow(h, events[0], now, id, t);
      HistoryIsWindowOfSamples(RecordEvent(h, events[0], now), events[1..], now, id, t + head);
      assert SampleTrace(events, id, now) == head + tail;
      ConcatAssoc(t, head, tail);
    }
  }

  /** The log is always the last (at most) 1000 entries derived from the
      status changes delivered, in arrival order. */
  lemma {:induction false} LogIsWindowOfEntries(logs: seq<LogEntry>, events: seq<Event>, now: int, t: seq<LogEntry>)
    requires logs == Window(t, MaxLogs)
    ensures ReplayLogs(logs, events, now) == Window(t + EntryTrace(events, now), MaxLogs)
    decreases |events|
  {
    if events != [] {
      var head, tail := EventEntries(events[0], now), EntryTrace(events[1..], now);
      LogEventWindow(logs, events[0], now, t);
      LogIsWindowOfEntries(LogEvent(logs, events[0], now), events[1..], now, t + head);
      assert EntryTrace(events, now) == head + tail;
      ConcatAssoc(t, head, tail);
    }
  }

  /** server.js's module state around the simulator it drives. */
  class Server {
    const sim: DeviceSimulator
    /** deviceId -> samples, oldest first (`history`). */
    var history: map<string, seq<Sample>>
    /** Log entries, oldest first (`logs`). */
    var logs: seq<LogEntry>

    ghost predicate Valid()
      reads this, sim, sim.devices, sim.prevStatuses
    {
      sim.Valid() && Bounded(history) && |logs| <= MaxLogs &&
      forall i :: 0 <= i < sim.devices.Length ==> sim.devices[i].id in history
    }

    /** Creates an empty history for every device the simulator lists. */
    constructor (sim: DeviceSimulator)
      requires sim.Valid()
      ensures Valid() && this.sim == sim
      ensures history.Keys == IdsOf(sim.devices[..])
      ensures forall id :: id in history ==> history[id] == []
      ensures logs == []
    {
      var devs := sim.GetDevices();
      var h: map<string, seq<Sample>> := map[];
      var k := 0;
      while k < |devs|
        invariant 0 <= k <= |devs|
        invariant h.Keys == IdsOf(devs[..k])
        invariant forall id :: id in h ==> h[id] == []
      {
        assert devs[..k + 1] == devs[..k] + [devs[k]];
        h := h[devs[k].id := []];
        k := k + 1;
      }
      assert devs[..k] == devs == sim.devices[..];
      this.sim := sim;
      history := h;
      logs := [];
      new;
      forall i | 0 <= i < sim.devices.Length
        ensures sim.devices[i].id in history
      {
        assert sim.devices[i] in devs;
      }
    }

    /** The `snapshot` handler: pushes `{ts, status, bandwidth}` onto the
        history of every listed device in order, creating a missing
        history first and shifting out the oldest sample beyond 200. */
    method OnSnapshot(s: Snapshot, now: int)
      requires Valid()
      modifies this
      ensures Valid()
      ensures history == ApplySamples(old(history), s.devices, StampOrNow(s.timestamp, now))
      ensures logs == old(logs)
    {
      var ts := StampOrNow(s.timestamp, now);
      var devs := s.devices;
      var k := 0;
      while k < |devs|
        invariant 0 <= k <= |devs|
        invariant ApplySamples(history, devs[k..], ts) == ApplySamples(old(history), devs, ts)
        invariant Bounded(history) && old(history).Keys <= history.Keys
        invariant logs == old(logs)
      {
        ApplySamplesStep(history, devs, k, ts);
        RecordSample(devs[k], ts);
        k := k + 1;
      }
    }

    /** One iteration of the snapshot handler's loop: creates the device's
        history if missing, pushes the sample and shifts out the oldest
        beyond 200. */
    method RecordSample(d: Device, ts: int)
      modifies this
      ensures history == old(history)[d.id := Push(Lookup(old(history), d.id), SampleOf(d, ts), MaxHistory)]
      ensures logs == old(logs)
    {
      var buf: seq<Sample> := [];
      if d.id in history {
        buf := history[d.id];
      }
      buf := buf + [Sample(ts, d.status, d.bandwidth)];
      if |buf| > MaxHistory {
        buf := buf[1..];
      }
      history := history[d.id := buf];
    }

    /** The `statusChange` handler: appends the change's log entry and
        shifts out the oldest entry beyond 1000. */
    method OnStatusChange(c: StatusChange, now: int)
      requires Valid()
      modifies this
      ensures Valid()
      ensures logs == Push(old(logs), LogEntryFor(c, now), MaxLogs)
      ensures history == old(history)
    {
      var entry := LogEntryFor(c, now);
      logs := logs + [entry];
      if |logs| > MaxLogs {
        logs := logs[1..];
      }
    }

    /** Hands the events of one tick to the two handlers, in emission order. */
    method Dispatch(events: seq<Event>, now: int)
      requires Valid()
      modifies this
      ensures Valid()
      ensures history == ReplayHistory(old(history), events, now)
      ensures logs == ReplayLogs(old(logs), events, now)
    {
      var k := 0;
      while k < |events|
        invariant 0 <= k <= |events|
        invariant Valid()
        invariant ReplayHistory(history, events[k..], now) == ReplayHistory(old(history), events, now)
        invariant ReplayLogs(logs, events[k..], now) == ReplayLogs(old(logs), events, now)
      {
        assert events[k..][0] == events[k] && events[k..][1..] == events[k + 1..];
        match events[k] {
          case Change(c) => OnStatusChange(c, now);
          case Snap(s) => OnSnapshot(s, now);
        }
        k := k + 1;
      }
    }

    /** One firing of the polling interval: a simulator tick whose events
        reach the handlers. */
    method Poll(draws: seq<Draw>, now: int) returns (events: seq<Event>)
      requires Valid()
      requires |draws| == sim.devices.Length && ValidDraws(draws)
      modifies this, sim.devices, sim.prevStatuses
      ensures Valid()
      ensures sim.devices[..] == StepAll(old(sim.devices[..]), draws)
      ensures sim.prevStatuses[..] == StatusesOf(sim.devices[..])
      ensures events == TickEvents(old(sim.devices[..]), old(sim.prevStatuses[..]), draws, now)
      ensures history == ReplayHistory(old(history), events, now)
      ensures history.Keys == old(history).Keys
      ensures logs == ReplayLogs(old(logs), events, now)
    {
      StepAllKeepsDevices(sim.devices[..], draws);
      TickSnapshotsWithin(sim.devices[..], sim.prevStatuses[..], draws, now, history.Keys);
      events := sim.Tick(draws, now);
      ReplayKeepsKeys(history, events, now);
      Dispatch(events, now);
    }

    /** `GET /api/history/:deviceId`. */
    function RestHistory(id: string): (r: HistoryReply)
      reads this
      ensures r.HistoryNotFound? <==> id !in history
      ensures r.HistoryFound? ==> r.deviceId == id && r.samples == history[id]
    {
      if id !in history then HistoryNotFound else HistoryFound(id, history[id])
    }

    /** The socket `getHistory` request: an unknown id gets an empty list. */
    function SocketHistory(id: string): (r: seq<Sample>)
      reads this
      ensures id in history ==> r == history[id]
      ensures id !in history ==> r == []
    {
      if id !in history then [] else history[id]
    }

    /** `GET /api/logs`, and the logs sent on connection: the newest 200
        entries, oldest first. */
    function RecentLogs(): (r: seq<LogEntry>)
      reads this
      ensures |r| == if |logs| <= RecentLogCount then |logs| else RecentLogCount
      ensures logs == logs[..|logs| - |r|] + r
    {
      Window(logs, RecentLogCount)
    }

    /** `POST /api/force/:deviceId/:status`: a status other than "online"
        or "offline" is refused before the simulator is asked; an id the
        simulator does not know is a 404. */
    method Force(deviceId: string, status: string) returns (r: ForceReply)
      requires Valid()
      modifies sim.devices
      ensures Valid()
      ensures ParseStatus(status).None? ==> r == BadStatus && sim.devices[..] == old(sim.devices[..])
      ensures ParseStatus(status).Some? ==>
        sim.devices[..] == Forced(old(sim.devices[..]), deviceId, ParseStatus(status).value)
      ensures ParseStatus(status).Some? ==>
        r == if Find(old(sim.devices[..]), deviceId).Some? then ForceApplied(deviceId, status) else DeviceNotFound
    {
      var parsed := ParseStatus(status);
      if parsed.None? {
        return BadStatus;
      }
      var ok := sim.ForceStatus(deviceId, parsed.value);
      if !ok {
        return DeviceNotFound;
      }
      r := ForceApplied(deviceId, status);
    }
  }
}
