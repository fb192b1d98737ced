/** The device simulator of deviceSimulator.js: three hard-coded devices
    whose status flips at random and whose bandwidth performs a clamped
    random walk, plus the record of each device's previously reported
    status, from which status-change events are derived.

    Randomness is injected: each device draws, per tick, whether it flips,
    a walk step and a resample value (a `Draw`). The clock is a parameter.
    Bandwidth is kept in integer tenths of a Mbps, which is exact for the
    source's rounding to one decimal. Emitted events are returned in the
    order in which they are emitted. */
module Simulation {

  datatype Option<T> = None | Some(value: T)

  /** A device's status; the source keeps it as the string "online" or "offline". */
  datatype Status = Online | Offline

  function Flip(s: Status): (t: Status)
    ensures t != s
  {
    if s == Online then Offline else Online
  }

  function StatusName(s: Status): string
  {
    match s
    case Online => "online"
    case Offline => "offline"
  }

  /** A device; `bandwidth` is in tenths of a Mbps. */
  datatype Device = Device(id: string, name: string, ip: string, status: Status, bandwidth: nat)

  /** The devices the simulator starts with (12, 30 and 5 Mbps). */
  const InitialDevices: seq<Device> := [
    Device("dev-1", "Device A", "10.0.0.1", Online, 120),
    Device("dev-2", "Device B", "10.0.0.2", Online, 300),
    Device("dev-3", "Device C", "10.0.0.3", Online, 50)
  ]

  /** Largest walk step, in tenths: the step is (random - 0.5) * 10 Mbps, rounded to tenths. */
  const WalkStep: int := 50
  /** Bandwidth below 1.0 Mbps is replaced by a resampled value. */
  const Floor: nat := 10
  /** The resample is random * 5 + 1 Mbps, rounded to tenths. */
  const ResampleLow: nat := 10
  const ResampleHigh: nat := 60

  /** The random values one device consumes in one tick: whether its
      status flips (the 5% chance), the walk step and the resample value. */
  datatype Draw = Draw(flip: bool, delta: int, resample: nat)

  predicate ValidDraw(r: Draw)
  {
    -WalkStep <= r.delta <= WalkStep && ResampleLow <= r.resample <= ResampleHigh
  }

  predicate ValidDraws(draws: seq<Draw>)
  {
    forall i :: 0 <= i < |draws| ==> ValidDraw(draws[i])
  }

  predicate DistinctIds(devs: seq<Device>)
  {
    forall i, j :: 0 <= i < j < |devs| ==> devs[i].id != devs[j].id
  }

  /** Offline devices carry no bandwidth. */
  predicate OfflineIdle(devs: seq<Device>)
  {
    forall i :: 0 <= i < |devs| ==> (devs[i].status == Offline ==> devs[i].bandwidth == 0)
  }

  function StatusesOf(devs: seq<Device>): seq<Status>
  {
    seq(|devs|, i requires 0 <= i < |devs| => devs[i].status)
  }

  /** Bandwidth of a device that is online after the flip: the walk,
      clamped at zero, or the resample when the walk ends below the floor. */
  function Walk(b: nat, r: Draw): (w: nat)
    requires ValidDraw(r)
    ensures Floor <= w
    ensures b + r.delta >= Floor ==> w == b + r.delta
    ensures b + r.delta < Floor ==> w == r.resample
  {
    var walked := if b + r.delta < 0 then 0 else b + r.delta;
    if walked < Floor then r.resample else walked
  }

  /** One device's update in a tick. */
  function Step(d: Device, r: Draw): (e: Device)
    requires ValidDraw(r)
    ensures e.id == d.id && e.name == d.name && e.ip == d.ip
    ensures e.status == if r.flip then Flip(d.status) else d.status
    ensures e.status == Offline <==> e.bandwidth == 0
    ensures e.status == Online ==> Floor <= e.bandwidth
  {
    var status := if r.flip then Flip(d.status) else d.status;
    match status
    case Online => d.(status := Online, bandwidth := Walk(d.bandwidth, r))
    case Offline => d.(status := Offline, bandwidth := 0)
  }

  function StepAll(devs: seq<Device>, draws: seq<Draw>): (r: seq<Device>)
    requires |draws| == |devs| && ValidDraws(draws)
    ensures |r| == |devs| && OfflineIdle(r)
  {
    seq(|devs|, i requires 0 <= i < |devs| => Step(devs[i], draws[i]))
  }

  /** After a step, ids, names and addresses are unchanged, offline
      devices carry no bandwidth and online ones at least the floor. */
  lemma StepAllKeepsDevices(pre: seq<Device>, draws: seq<Draw>)
    requires |draws| == |pre| && ValidDraws(draws) && DistinctIds(pre)
    ensures var post := StepAll(pre, draws);
      |post| == |pre| && DistinctIds(post) && OfflineIdle(post) &&
      (forall i :: 0 <= i < |pre| ==> post[i].id == pre[i].id && post[i].name == pre[i].name && post[i].ip == pre[i].ip) &&
      (forall i :: 0 <= i < |pre| ==> (post[i].status == Online ==> Floor <= post[i].bandwidth))
  {
    var post := StepAll(pre, draws);
    forall i, j | 0 <= i < j < |post|
      ensures post[i].id != post[j].id
    {
      assert post[i].id == pre[i].id && post[j].id == pre[j].id;
    }
  }

  datatype StatusChange = StatusChange(id: string, name: string, ip: string,
                                       oldStatus: Status, newStatus: Status, timestamp: int)
  datatype Snapshot = Snapshot(devices: seq<Device>, timestamp: int)
  /** What the simulator emits: 'statusChange' and 'snapshot'. */
  datatype Event = Change(change: StatusChange) | Snap(snapshot: Snapshot)

  function ChangeOf(d: Device, was: Status, now: int): StatusChange
  {
    StatusChange(d.id, d.name, d.ip, was, d.status, now)
  }

  /** The status-change events of the first `k` devices, in the order the
      tick's loop emits them. */
  function ChangesUpTo(post: seq<Device>, prev: seq<Status>, now: int, k: nat): (r: seq<Event>)
    requires k <= |post| && k <= |prev|
    ensures |r| <= k
  {
    if k == 0 then []
    else ChangesUpTo(post, prev, now, k - 1) +
         (if post[k - 1].status != prev[k - 1] then [Change(ChangeOf(post[k - 1], prev[k - 1], now))] else [])
  }

  /** Everything one tick emits, in order. */
  function TickEvents(pre: seq<Device>, prev: seq<Status>, draws: seq<Draw>, now: int): (r: seq<Event>)
    requires |pre| == |prev| == |draws| && ValidDraws(draws)
    ensures 1 <= |r| <= |pre| + 1
    ensures r[|r| - 1] == Snap(Snapshot(StepAll(pre, draws), now))
  {
    var post := StepAll(pre, draws);
    ChangesUpTo(post, prev, now, |pre|) + [Snap(Snapshot(post, now))]
  }

  /** Every event of `evs` is a status change, between two different
      statuses, stamped `now`. */
  predicate AllGenuine(evs: seq<Event>, now: int)
  {
    forall a :: 0 <= a < |evs| ==>
      evs[a].Change? && evs[a].change.timestamp == now &&
      evs[a].change.oldStatus != evs[a].change.newStatus
  }

  /** Every event reported for the first `k` devices is a genuine status
      change stamped with the tick's time, and every device below `k`
      whose status differs from its recorded one is reported. */
  lemma {:induction false} ChangesAreGenuine(post: seq<Device>, prev: seq<Status>, now: int, k: nat)
    requires k <= |post| && k <= |prev|
    ensures AllGenuine(ChangesUpTo(post, prev, now, k), now)
    ensures forall i :: 0 <= i < k && post[i].status != prev[i] ==>
      Change(ChangeOf(post[i], prev[i], now)) in ChangesUpTo(post, prev, now, k)
  {
    if k > 0 {
      ChangesAreGenuine(post, prev, now, k - 1);
      var evs, last := ChangesUpTo(post, prev, now, k - 1), k - 1;
      if post[last].status != prev[last] {
        var x := Change(ChangeOf(post[last], prev[last], now));
        assert ChangesUpTo(post, prev, now, k) == evs + [x];
        forall i | 0 <= i < k && post[i].status != prev[i]
          ensures Change(ChangeOf(post[i], prev[i], now)) in evs + [x]
        {
          if i < last {
            assert Change(ChangeOf(post[i], prev[i], now)) in evs;
          }
        }
      } else {
        assert ChangesUpTo(post, prev, now, k) == evs;
      }
    }
  }

  /** No event in `evs` names a device at or beyond `k`, nor one whose
      status did not change. */
  predicate NamesOnlyChanged(evs: seq<Event>, post: seq<Device>, prev: seq<Status>, k: nat)
    requires |post| == |prev|
  {
    forall a, j ::
      (0 <= a < |evs| && 0 <= j < |post| && evs[a].Change? &&
       (k <= j || post[j].status == prev[j])) ==> evs[a].change.id != post[j].id
  }

  /** With distinct ids, no event reported for the first `k` devices
      names a device at or beyond `k`, nor one whose status did not change. */
  lemma {:induction false} ChangesNameChangedDevices(post: seq<Device>, prev: seq<Status>, now: int, k: nat)
    requires k <= |post| == |prev| && DistinctIds(post)
    ensures NamesOnlyChanged(ChangesUpTo(post, prev, now, k), post, prev, k)
  {
    if k > 0 {
      var last := k - 1;
      var evs := ChangesUpTo(post, prev, now, last);
      var all := ChangesUpTo(post, prev, now, k);
      ChangesNameChangedDevices(post, prev, now, last);
      var x := Change(ChangeOf(post[last], prev[last], now));
      assert all == if post[last].status != prev[last] then evs + [x] else evs;
      forall a, j | 0 <= a < |all| && 0 <= j < |post| && all[a].Change? &&
          (k <= j || post[j].status == prev[j])
        ensures all[a].change.id != post[j].id
      {
        if a < |evs| {
          assert all[a] == evs[a];
          assert evs[a].Change? && (last <= j || post[j].status == prev[j]);
          assert evs[a].change.id != post[j].id;
        } else {
          assert all[a] == x && j != last;
          assert x.change.id == post[last].id;
          assert post[last].id != post[j].id;
        }
      }
    }
  }

  /** Every event of `evs` is the status change of some device below `k`
      whose status differs from its recorded one. */
  predicate OnlyChangesOf(evs: seq<Event>, post: seq<Device>, prev: seq<Status>, now: int, k: nat)
    requires k <= |post| && k <= |prev|
  {
    forall a :: 0 <= a < |evs| ==>
      exists j :: 0 <= j < k && post[j].status != prev[j] && evs[a] == Change(ChangeOf(post[j], prev[j], now))
  }

  /** Nothing is reported for the first `k` devices but the changes of
      those among them whose status differs from the recorded one. */
  lemma {:induction false} ChangesAreOfChangedDevices(post: seq<Device>, prev: seq<Status>, now: int, k: nat)
    requires k <= |post| && k <= |prev|
    ensures OnlyChangesOf(ChangesUpTo(post, prev, now, k), post, prev, now, k)
  {
    if k > 0 {
      var last := k - 1;
      var evs := ChangesUpTo(post, prev, now, last);
      var all := ChangesUpTo(post, prev, now, k);
      ChangesAreOfChangedDevices(post, prev, now, last);
      var x := Change(ChangeOf(post[last], prev[last], now));
      assert all == if post[last].status != prev[last] then evs + [x] else evs;
      forall a | 0 <= a < |all|
        ensures exists j :: 0 <= j < k && post[j].status != prev[j] && all[a] == Change(ChangeOf(post[j], prev[j], now))
      {
        if a < |evs| {
          assert all[a] == evs[a];
          var j :| 0 <= j < last && post[j].status != prev[j] && evs[a] == Change(ChangeOf(post[j], prev[j], now));
          assert 0 <= j < k;
        } else {
          assert all[a] == x && post[last].status != prev[last];
        }
      }
    }
  }

  /** Whenever two change events in `evs` name devices of `post`, the
      earlier event names the earlier device. */
  predicate InDeviceOrder(evs: seq<Event>, post: seq<Device>)
  {
    forall a, b, i, j ::
      (0 <= a < b < |evs| && 0 <= i < |post| && 0 <= j < |post| &&
       evs[a].Change? && evs[b].Change? &&
       evs[a].change.id == post[i].id && evs[b].change.id == post[j].id) ==> i < j
  }

  /** With distinct ids, the events reported for the first `k` devices
      follow the device order, so no device is reported twice. */
  lemma {:induction false} ChangesInDeviceOrder(post: seq<Device>, prev: seq<Status>, now: int, k: nat)
    requires k <= |post| == |prev| && DistinctIds(post)
    ensures InDeviceOrder(ChangesUpTo(post, prev, now, k), post)
  {
    if k > 0 {
      var last := k - 1;
      var evs := ChangesUpTo(post, prev, now, last);
      var all := ChangesUpTo(post, prev, now, k);
      ChangesInDeviceOrder(post, prev, now, last);
      ChangesNameChangedDevices(post, prev, now, last);
      var x := Change(ChangeOf(post[last], prev[last], now));
      assert all == if post[last].status != prev[last] then evs + [x] else evs;
      forall a, b, i, j |
          0 <= a < b < |all| && 0 <= i < |post| && 0 <= j < |post| &&
          all[a].Change? && all[b].Change? &&
          all[a].change.id == post[i].id && all[b].change.id == post[j].id
        ensures i < j
      {
        assert all[a] == evs[a];
        if b < |evs| {
          assert all[b] == evs[b];
        } else {
          assert all[b] == x && j == last;
          assert i < last;
        }
      }
    }
  }

  /** A tick emits its status changes, all stamped with the tick's time,
      and then exactly one snapshot of the post-tick devices, last. */
  lemma TickEndsWithSnapshot(pre: seq<Device>, prev: seq<Status>, draws: seq<Draw>, now: int)
    requires |pre| == |prev| == |draws| && ValidDraws(draws)
    ensures var evs := TickEvents(pre, prev, draws, now);
      1 <= |evs| <= |pre| + 1 &&
      evs[|evs| - 1] == Snap(Snapshot(StepAll(pre, draws), now)) &&
      forall a :: 0 <= a < |evs| - 1 ==> evs[a].Change? && evs[a].change.timestamp == now
  {
    var post := StepAll(pre, draws);
    ChangesAreGenuine(post, prev, now, |pre|);
    var changes := ChangesUpTo(post, prev, now, |pre|);
    var evs := TickEvents(pre, prev, draws, now);
    assert evs == changes + [Snap(Snapshot(post, now))];
    assert forall a :: 0 <= a < |evs| - 1 ==> evs[a] == changes[a];
  }

  /** A status-change event is emitted for a device if and only if its
      post-tick status differs from its recorded previous status, and it
      carries the recorded status as the old one. At most one event is
      emitted per device, and the events follow the device order. */
  lemma TickChangeEvents(pre: seq<Device>, prev: seq<Status>, draws: seq<Draw>, now: int)
    requires |pre| == |prev| == |draws| && ValidDraws(draws) && DistinctIds(pre)
    ensures var post := StepAll(pre, draws);
      var evs := TickEvents(pre, prev, draws, now);
      forall i :: 0 <= i < |pre| ==>
        (post[i].status != prev[i] <==> Change(ChangeOf(post[i], prev[i], now)) in evs)
    ensures var post := StepAll(pre, draws);
      var evs := TickEvents(pre, prev, draws, now);
      forall a, b, i, j ::
        (0 <= a < b < |evs| && 0 <= i < |pre| && 0 <= j < |pre| &&
         evs[a].Change? && evs[b].Change? &&
         evs[a].change.id == post[i].id && evs[b].change.id == post[j].id) ==> i < j
  {
    var post := StepAll(pre, draws);
    StepAllKeepsDevices(pre, draws);
    ChangesAreGenuine(post, prev, now, |pre|);
    ChangesInDeviceOrder(post, prev, now, |pre|);
    var changes := ChangesUpTo(post, prev, now, |pre|);
    var evs := TickEvents(pre, prev, draws, now);
    assert evs == changes + [Snap(Snapshot(post, now))];
    forall i | 0 <= i < |pre| && Change(ChangeOf(post[i], prev[i], now)) in evs
      ensures post[i].status != prev[i]
    {
      var a :| 0 <= a < |evs| && evs[a] == Change(ChangeOf(post[i], prev[i], now));
      assert a < |changes| && changes[a] == evs[a];
    }
    forall a, b, i, j |
        0 <= a < b < |evs| && 0 <= i < |pre| && 0 <= j < |pre| &&
        evs[a].Change? && evs[b].Change? &&
        evs[a].change.id == post[i].id && evs[b].change.id == post[j].id
      ensures i < j
    {
      assert b < |changes| && changes[a] == evs[a] && changes[b] == evs[b];
    }
  }

  /** Before its snapshot a tick emits nothing but the changes of devices
      whose new status differs from the recorded one: no event for an
      unchanged device, none for an id that is not a device's. */
  lemma TickReportsOnlyChanges(pre: seq<Device>, prev: seq<Status>, draws: seq<Draw>, now: int)
    requires |pre| == |prev| == |draws| && ValidDraws(draws)
    ensures var evs := TickEvents(pre, prev, draws, now);
      OnlyChangesOf(evs[..|evs| - 1], StepAll(pre, draws), prev, now, |pre|)
  {
    var post := StepAll(pre, draws);
    ChangesAreOfChangedDevices(post, prev, now, |pre|);
    var changes := ChangesUpTo(post, prev, now, |pre|);
    var evs := TickEvents(pre, prev, draws, now);
    assert evs[..|evs| - 1] == changes;
  }

  /** With the recorded statuses in step with the devices (as after
      construction and after every tick), a tick in which nothing flips
      emits the snapshot alone. */
  lemma SteadyTickWithoutFlipsIsQuiet(pre: seq<Device>, draws: seq<Draw>, now: int)
    requires |pre| == |draws| && ValidDraws(draws)
    requires forall i :: 0 <= i < |draws| ==> !draws[i].flip
    ensures TickEvents(pre, StatusesOf(pre), draws, now) == [Snap(Snapshot(StepAll(pre, draws), now))]
  {
    var post := StepAll(pre, draws);
    UnchangedReportsNothing(post, StatusesOf(pre), now, |pre|);
  }

  /** No device below `k` changed, so nothing is reported for them. */
  lemma {:induction false} UnchangedReportsNothing(post: seq<Device>, prev: seq<Status>, now: int, k: nat)
    requires k <= |post| && k <= |prev|
    requires forall i :: 0 <= i < k ==> post[i].status == prev[i]
    ensures ChangesUpTo(post, prev, now, k) == []
  {
    if k > 0 {
      UnchangedReportsNothing(post, prev, now, k - 1);
    }
  }

  /** Position of the first device with the given id (`Array.find`). */
  function Find(devs: seq<Device>, id: string): (r: Option<nat>)
    ensures r.Some? ==> r.value < |devs| && devs[r.value].id == id &&
                        forall j :: 0 <= j < r.value ==> devs[j].id != id
    ensures r.None? ==> forall j :: 0 <= j < |devs| ==> devs[j].id != id
  {
    if |devs| == 0 then None
    else if devs[0].id == id then Some(0)
    else match Find(devs[1..], id)
      case None => None
      case Some(j) => Some(j + 1)
  }

  /** A device after `forceStatus`: the new status, and no bandwidth when forced offline. */
  function ForceAt(d: Device, status: Status): (e: Device)
    ensures e.id == d.id && e.name == d.name && e.ip == d.ip && e.status == status
    ensures status == Offline ==> e.bandwidth == 0
    ensures status == Online ==> e.bandwidth == d.bandwidth
  {
    d.(status := status, bandwidth := if status == Offline then 0 else d.bandwidth)
  }

  /** The devices after `forceStatus(id, status)`. */
  function Forced(devs: seq<Device>, id: string, status: Status): (r: seq<Device>)
    requires DistinctIds(devs)
    ensures |r| == |devs| && DistinctIds(r)
    ensures forall j :: 0 <= j < |devs| ==> r[j].id == devs[j].id && r[j].name == devs[j].name && r[j].ip == devs[j].ip
    ensures forall j :: 0 <= j < |devs| && devs[j].id != id ==> r[j] == devs[j]
    ensures forall j :: 0 <= j < |devs| && devs[j].id == id ==>
      r[j].status == status && (status == Offline ==> r[j].bandwidth == 0) &&
      (status == Online ==> r[j].bandwidth == devs[j].bandwidth)
  {
    match Find(devs, id)
    case None => devs
    case Some(i) => devs[i := ForceAt(devs[i], status)]
  }

  /** `forceStatus` leaves the recorded previous status alone, so when it
      changes a device's status the next tick reports that change, with
      the status from before the force as the old one, unless the device
      flips back on that very tick, in which case nothing is reported. */
  lemma ForcedChangeReportedNextTick(pre: seq<Device>, draws: seq<Draw>, now: int, i: nat, status: Status)
    requires |pre| == |draws| && ValidDraws(draws) && DistinctIds(pre)
    requires i < |pre| && status != pre[i].status
    ensures var evs := TickEvents(Forced(pre, pre[i].id, status), StatusesOf(pre), draws, now);
      !draws[i].flip ==>
        Change(StatusChange(pre[i].id, pre[i].name, pre[i].ip, pre[i].status, status, now)) in evs
    ensures var evs := TickEvents(Forced(pre, pre[i].id, status), StatusesOf(pre), draws, now);
      draws[i].flip ==> forall e :: e in evs && e.Change? ==> e.change.id != pre[i].id
  {
    var forced := Forced(pre, pre[i].id, status);
    var prev := StatusesOf(pre);
    var post := StepAll(forced, draws);
    StepAllKeepsDevices(forced, draws);
    var changes := ChangesUpTo(post, prev, now, |pre|);
    var evs := TickEvents(forced, prev, draws, now);
    assert evs == changes + [Snap(Snapshot(post, now))];
    if !draws[i].flip {
      ChangesAreGenuine(post, prev, now, |pre|);
      assert post[i].status == status != prev[i];
      assert Change(ChangeOf(post[i], prev[i], now)) in changes;
    } else {
      ChangesNameChangedDevices(post, prev, now, |pre|);
      assert post[i].status == prev[i];
      forall e | e in evs && e.Change?
        ensures e.change.id != pre[i].id
      {
        var a :| 0 <= a < |evs| && evs[a] == e;
        assert a < |changes| && changes[a] == e;
      }
    }
  }

  /** deviceSimulator.js's DeviceSimulator. The two arrays are fixed at
      construction; the simulator updates their elements in place. */
  class DeviceSimulator {
    const devices: array<Device>
    /** The status last reported for each device, by position. */
    const prevStatuses: array<Status>

    ghost predicate Valid()
      reads this, devices, prevStatuses
    {
      prevStatuses.Length == devices.Length &&
      DistinctIds(devices[..]) && OfflineIdle(devices[..])
    }

    constructor ()
      ensures Valid() && fresh(devices) && fresh(prevStatuses)
      ensures devices[..] == InitialDevices
      ensures prevStatuses[..] == StatusesOf(InitialDevices)
    {
      var init := InitialDevices;
      devices := new Device[|init|](i requires 0 <= i < |init| => init[i]);
      prevStatuses := new Status[|init|](i requires 0 <= i < |init| => init[i].status);
    }

    /** Copies of the devices (`getDevices`). */
    method GetDevices() returns (r: seq<Device>)
      ensures |r| == devices.Length
      ensures forall i :: 0 <= i < |r| ==> r[i] == devices[i]
    {
      r := devices[..];
    }

    /** One device's status flip and bandwidth update, as the body of the
        tick's loop performs it on `d`. */
    static method Advance(d: Device, r: Draw) returns (e: Device)
      requires ValidDraw(r)
      ensures e == Step(d, r)
    {
      e := d;
      if r.flip {
        e := e.(status := Flip(e.status));
      }
      if e.status == Online {
        var walked := e.bandwidth + r.delta;
        if walked < 0 {
          walked := 0;
        }
        if walked < Floor {
          walked := r.resample;
        }
        e := e.(bandwidth := walked);
      } else {
        e := e.(bandwidth := 0);
      }
    }

    /** The tick's loop body for the device at position `i`: update it in
        place, and when its status differs from the recorded one, report
        the change and record the new status. */
    method AdvanceAt(i: nat, r: Draw, now: int) returns (change: seq<Event>)
      requires i < devices.Length == prevStatuses.Length && ValidDraw(r)
      modifies devices, prevStatuses
      ensures devices[i] == Step(old(devices[i]), r) && prevStatuses[i] == devices[i].status
      ensures forall k :: 0 <= k < devices.Length && k != i ==>
        devices[k] == old(devices[k]) && prevStatuses[k] == old(prevStatuses[k])
      ensures change == if devices[i].status != old(prevStatuses[i])
                        then [Change(ChangeOf(devices[i], old(prevStatuses[i]), now))] else []
    {
      var d := Advance(devices[i], r);
      devices[i] := d;
      change := [];
      if d.status != prevStatuses[i] {
        change := [Change(StatusChange(d.id, d.name, d.ip, prevStatuses[i], d.status, now))];
        prevStatuses[i] := d.status;
      }
    }

    /** The tick's loop: advances every device in order and collects the
        status changes it reports. */
    method AdvanceDevices(draws: seq<Draw>, now: int) returns (changes: seq<Event>)
      requires devices.Length == prevStatuses.Length
      requires |draws| == devices.Length && ValidDraws(draws)
      modifies devices, prevStatuses
      ensures forall k :: 0 <= k < devices.Length ==>
        devices[k] == StepAll(old(devices[..]), draws)[k] && prevStatuses[k] == devices[k].status
      ensures changes == ChangesUpTo(StepAll(old(devices[..]), draws), old(prevStatuses[..]), now, devices.Length)
    {
      ghost var pre := devices[..];
      ghost var prev := prevStatuses[..];
      ghost var post := StepAll(pre, draws);
      var n := devices.Length;
      changes := [];
      var i := 0;
      while i < n
        invariant 0 <= i <= n
        invariant forall k :: 0 <= k < i ==> devices[k] == post[k] && prevStatuses[k] == post[k].status
        invariant forall k :: i <= k < n ==> devices[k] == pre[k] && prevStatuses[k] == prev[k]
        invariant changes == ChangesUpTo(post, prev, now, i)
      {
        var change := AdvanceAt(i, draws[i], now);
        changes := changes + change;
        i := i + 1;
      }
    }

    /** Advances every device by one step, emitting a status change for
        each device whose status differs from the recorded one and then
        one snapshot; all carry the time `now`. */
    method Tick(draws: seq<Draw>, now: int) returns (events: seq<Event>)
      requires Valid()
      requires |draws| == devices.Length && ValidDraws(draws)
      modifies devices, prevStatuses
      ensures Valid()
      ensures devices[..] == StepAll(old(devices[..]), draws)
      ensures prevStatuses[..] == StatusesOf(devices[..])
      ensures forall i :: 0 <= i < devices.Length ==>
        (devices[i].status == Offline <==> devices[i].bandwidth == 0) &&
        (devices[i].status == Online ==> Floor <= devices[i].bandwidth)
      ensures events == TickEvents(old(devices[..]), old(prevStatuses[..]), draws, now)
    {
      ghost var post := StepAll(devices[..], draws);
      StepAllKeepsDevices(devices[..], draws);
      var changes := AdvanceDevices(draws, now);
      assert devices[..] == post;
      assert prevStatuses[..] == StatusesOf(post);
      var snapshot := GetDevices();
      assert snapshot == post;
      events := changes + [Snap(Snapshot(snapshot, now))];
    }

    /** Sets the status of the device with the given id, and zeroes its
        bandwidth when the new status is offline (`forceStatus`). Reports
        whether the id was found. Emits nothing and leaves the recorded
        previous statuses untouched. */
    method ForceStatus(id: string, status: Status) returns (ok: bool)
      requires Valid()
      modifies devices
      ensures Valid()
      ensures ok <==> exists j :: 0 <= j < devices.Length && devices[j].id == id
      ensures devices[..] == Forced(old(devices[..]), id, status)
      ensures prevStatuses[..] == old(prevStatuses[..])
    {
      var k := 0;
      while k < devices.Length && devices[k].id != id
        invariant 0 <= k <= devices.Length
        invariant forall j :: 0 <= j < k ==> devices[j].id != id
      {
        k := k + 1;
      }
      if k == devices.Length {
        return false;
      }
      assert Find(devices[..], id) == Some(k);
      devices[k] := ForceAt(devices[k], status);
      ok := true;
    }
  }
}
