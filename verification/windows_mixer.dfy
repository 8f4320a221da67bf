/** `WindowsVolumeMixer` and its endpoint notification client
    (src/WindowsVolumeMixer.cpp:871-978, 1029-1158). Beside the published
    mixer it keeps the mirror of its devices, the backend objects that
    the published map shares, and the peak-sampling thread. The device
    ids and property values the client is handed are already converted
    to UTF-8 strings. */
module WindowsMixer {
  import opened Observers
  import opened WindowsCommon
  import Devices
  import Mixers
  import KeyOrder
  import WorkThreads
  import WindowsDevice

  /** `EDataFlow`. */
  datatype DataFlow = Render | Capture | AllFlows

  /** `ERole`. */
  datatype Role = Console | Multimedia | Communications

  datatype WinMixer = WinMixer(
    mixer: Mixers.Mixer,
    mirror: map<string, WindowsDevice.WinDevice>,
    sampler: WorkThreads.Periodic)

  /** A callback sent to an observer of the mixer, of one of its devices,
      or of a session of one of its devices. */
  datatype Notice =
    | ToMixer(delivery: Delivery<Mixers.Event>)
    | ToDevice(deviceId: string, deviceDelivery: Delivery<Devices.Event>)
    | ToSession(sessionDeviceId: string, sessionNotice: WindowsDevice.SessionNotice)

  datatype Step = Step(next: WinMixer, log: seq<Notice>)

  /** The mirror holds exactly the published devices, and each backend
      device is the object published under its id. */
  predicate Shared(wm: WinMixer)
  {
    && wm.mirror.Keys == wm.mixer.devices.Keys
    && forall k :: k in wm.mirror ==> wm.mirror[k].device == wm.mixer.devices[k]
  }

  /** The mirror is shared with the published map and every mirrored
      device keeps its own bookkeeping consistent. */
  predicate Consistent(wm: WinMixer)
  {
    && Shared(wm)
    && forall k :: k in wm.mirror ==> WindowsDevice.Consistent(wm.mirror[k])
  }

  /** The device a callback is about; callbacks to the mixer's own
      observers belong to no device and never appear in a log split by
      device. */
  function DeviceOf(n: Notice): string
  {
    match n
    case ToMixer(_) => ""
    case ToDevice(id, _) => id
    case ToSession(id, _) => id
  }

  /** The published device map that shares the mirror's objects. */
  function Published(mirror: map<string, WindowsDevice.WinDevice>): (r: map<string, Devices.Device>)
    ensures r.Keys == mirror.Keys
    ensures forall k :: k in r ==> r[k] == mirror[k].device
  {
    map k | k in mirror :: mirror[k].device
  }

  /** Republishing a mirror shares it with the published map, and when
      its devices kept their bookkeeping, a consistent mixer stays so. */
  lemma RepublishConsistent(wm: WinMixer, mirror: map<string, WindowsDevice.WinDevice>, sampler: WorkThreads.Periodic)
    requires forall k :: k in mirror <==> k in wm.mirror
    requires forall k :: k in mirror ==> WindowsDevice.SameBookkeeping(wm.mirror[k], mirror[k])
    ensures Shared(WinMixer(wm.mixer.(devices := Published(mirror)), mirror, sampler))
    ensures Consistent(wm) ==> Consistent(WinMixer(wm.mixer.(devices := Published(mirror)), mirror, sampler))
  {
  }

  /** The mixer before any device is enumerated: the sampling thread is
      started with a zero period, so it is paused
      (src/WindowsVolumeMixer.cpp:871-873). */
  function New(): (wm: WinMixer)
    ensures Consistent(wm)
    ensures |wm.mirror| == 0 && |wm.mixer.devices| == 0 && |wm.mixer.observers| == 0
    ensures wm.sampler.period == 0 && !wm.sampler.stopRequested
  {
    WinMixer(Mixers.New(), map[], WorkThreads.Start(0))
  }

  /** The constructor's per-device step (src/WindowsVolumeMixer.cpp:910-929):
      a device created with the default flag `id == defaultId` is published
      with `addDevice`, then mirrored under the same id. */
  function AddEnumeratedDevice(wm: WinMixer, id: string, wd: WindowsDevice.WinDevice, defaultId: string, live: set<ObserverId>): (r: Step)
    ensures r.next.mirror.Keys == wm.mirror.Keys + {id}
    ensures r.next.mirror[id] == wd.(device := wd.device.(isDefault := id == defaultId))
    ensures forall k :: k in wm.mirror && k != id ==> r.next.mirror[k] == wm.mirror[k]
    ensures r.next.mixer == Mixers.AddDevice(wm.mixer, id, r.next.mirror[id].device, live).next
    ensures r.next.sampler == wm.sampler
    ensures |r.log| == |r.next.mixer.observers|
    ensures forall i :: 0 <= i < |r.log| ==>
      r.log[i] == ToMixer(Delivery(r.next.mixer.observers[i], Mixers.DeviceAdded(id, r.next.mirror[id].device)))
    ensures Shared(wm) ==> Shared(r.next)
    ensures Consistent(wm) && WindowsDevice.Consistent(wd) ==> Consistent(r.next)
  {
    var created := wd.(device := wd.device.(isDefault := id == defaultId));
    var added := Mixers.AddDevice(wm.mixer, id, created.device, live);
    var log := seq(|added.log|, i requires 0 <= i < |added.log| => ToMixer(added.log[i]));
    Step(wm.(mixer := added.next, mirror := wm.mirror[id := created]), log)
  }

  /** One mirrored device after `updateDefault(k == deviceId)`: the flag is
      stored, and only a device whose flag flips drops its dead observers;
      nothing else about the device or its bookkeeping changes. */
  function DefaultOne(k: string, wd: WindowsDevice.WinDevice, deviceId: string, live: set<ObserverId>): (r: WindowsDevice.WinDevice)
    ensures WindowsDevice.SameBookkeeping(wd, r)
    ensures r.device.isDefault == (k == deviceId)
    ensures forall i :: 0 <= i < Devices.FieldCount && i != 3 ==>
      Devices.Snapshot(r.device)[i] == Devices.Snapshot(wd.device)[i]
    ensures r.device.sessions == wd.device.sessions
    ensures wd.device.isDefault == (k == deviceId) ==> r == wd
    ensures wd.device.isDefault != (k == deviceId) ==> r.device.observers == Keep(wd.device.observers, live)
  {
    Devices.UpdateHolds(wd.device, Devices.DefaultChange(k == deviceId), live);
    wd.(device := Devices.Update(wd.device, Devices.DefaultChange(k == deviceId), live).next)
  }

  /** The mixer after every mirrored device's default flag is set to "its
      id is `deviceId`" and the mirror is republished. */
  function SetDefaults(wm: WinMixer, deviceId: string, live: set<ObserverId>): (r: WinMixer)
    requires Shared(wm)
    ensures r.mirror.Keys == wm.mirror.Keys
    ensures forall k :: k in wm.mirror ==> r.mirror[k] == DefaultOne(k, wm.mirror[k], deviceId, live)
    ensures forall k :: k in r.mirror ==> r.mirror[k].device.isDefault == (k == deviceId)
    ensures r.mixer.observers == wm.mixer.observers
    ensures r.sampler == wm.sampler
    ensures Shared(r)
    ensures Consistent(wm) ==> Consistent(r)
  {
    var mirror := map k | k in wm.mirror :: DefaultOne(k, wm.mirror[k], deviceId, live);
    RepublishConsistent(wm, mirror, wm.sampler);
    WinMixer(wm.mixer.(devices := Published(mirror)), mirror, wm.sampler)
  }

  /** `n` is a callback to an observer of a device of `mirror`, reporting
      that device's new default flag after `deviceId` became the default. */
  predicate ReportsDefault(n: Notice, mirror: map<string, WindowsDevice.WinDevice>, deviceId: string)
  {
    && n.ToDevice? && n.deviceId in mirror
    && n.deviceDelivery.event == Devices.DefaultChange(n.deviceId == deviceId)
  }

  /** The callbacks device `k` of `mirror` sends when its default flag is
      set, tagged with its id; an id outside the mirror sends none. */
  function DefaultNotices(mirror: map<string, WindowsDevice.WinDevice>, deviceId: string, live: set<ObserverId>, k: string)
    : (r: seq<Notice>)
    ensures KeyOrder.Owned(r, DeviceOf, k)
    ensures k !in mirror ==> r == []
  {
    if k !in mirror then []
    else
      var step := Devices.Update(mirror[k].device, Devices.DefaultChange(k == deviceId), live);
      seq(|step.log|, i requires 0 <= i < |step.log| => ToDevice(k, step.log[i]))
  }

  /** What a mirrored device sends when its default flag is set: nothing
      when the flag already held, otherwise one callback per live observer,
      in registration order, each reporting the new flag. */
  lemma DefaultNoticesExact(mirror: map<string, WindowsDevice.WinDevice>, deviceId: string, live: set<ObserverId>, k: string)
    requires k in mirror
    ensures mirror[k].device.isDefault == (k == deviceId) ==> DefaultNotices(mirror, deviceId, live, k) == []
    ensures mirror[k].device.isDefault != (k == deviceId) ==>
      var r := DefaultNotices(mirror, deviceId, live, k);
      var survivors := Keep(mirror[k].device.observers, live);
      && |r| == |survivors|
      && forall i :: 0 <= i < |r| ==> r[i] == ToDevice(k, Delivery(survivors[i], Devices.DefaultChange(k == deviceId)))
    ensures forall n :: n in DefaultNotices(mirror, deviceId, live, k) ==> ReportsDefault(n, mirror, deviceId)
  {
  }

  /** `log` holds, for each device of `mirror`, exactly the callbacks that
      device sends when its default flag is set, and nothing for any other
      id. */
  ghost predicate SplitsByDefault(log: seq<Notice>, mirror: map<string, WindowsDevice.WinDevice>, deviceId: string, live: set<ObserverId>)
  {
    forall k :: (KeyOrder.Select(log, DeviceOf, k)
      == if k in mirror then DefaultNotices(mirror, deviceId, live, k) else [])
  }

  /** The callbacks of a default change over the whole mirror, in map
      order: each device's own callbacks, grouped by device with ids
      ascending. Each reports its device's new flag. */
  function DefaultChangeLog(mirror: map<string, WindowsDevice.WinDevice>, deviceId: string, live: set<ObserverId>): (r: seq<Notice>)
    ensures SplitsByDefault(r, mirror, deviceId, live)
    ensures KeyOrder.InKeyOrder(r, DeviceOf)
    ensures forall i :: 0 <= i < |r| ==> ReportsDefault(r[i], mirror, deviceId)
  {
    var r := KeyOrder.Gather(mirror.Keys, k => DefaultNotices(mirror, deviceId, live, k), DeviceOf);
    forall i | 0 <= i < |r|
      ensures ReportsDefault(r[i], mirror, deviceId)
    {
      DefaultNoticesExact(mirror, deviceId, live, DeviceOf(r[i]));
    }
    r
  }

  /** A change of the console render default to `deviceId`: every
      mirrored device's default flag becomes "its id is `deviceId`", in map
      order, and only devices whose flag flips notify
      (src/WindowsVolumeMixer.cpp:1041-1044). */
  function SetDefaultDevice(wm: WinMixer, deviceId: string, live: set<ObserverId>): (r: Step)
    requires Shared(wm)
    ensures r.next.mirror.Keys == wm.mirror.Keys
    ensures forall k :: k in wm.mirror ==> r.next.mirror[k] == DefaultOne(k, wm.mirror[k], deviceId, live)
    ensures forall k :: k in wm.mirror ==> r.next.mirror[k].device.isDefault == (k == deviceId)
    ensures SplitsByDefault(r.log, wm.mirror, deviceId, live)
    ensures KeyOrder.InKeyOrder(r.log, DeviceOf)
    ensures forall i :: 0 <= i < |r.log| ==> ReportsDefault(r.log[i], wm.mirror, deviceId)
    ensures r.next.mixer.observers == wm.mixer.observers
    ensures r.next.sampler == wm.sampler
    ensures Shared(r.next)
    ensures Consistent(wm) ==> Consistent(r.next)
  {
    Step(SetDefaults(wm, deviceId, live), DefaultChangeLog(wm.mirror, deviceId, live))
  }

  /** `CMMNotificationClient::OnDefaultDeviceChanged`
      (src/WindowsVolumeMixer.cpp:1029-1049): only a change of the
      console render default is acted on, as `SetDefaultDevice`; other
      flows and roles change nothing and notify no one. */
  function OnDefaultDeviceChanged(wm: WinMixer, flow: DataFlow, role: Role, deviceId: string, live: set<ObserverId>): (r: Step)
    requires Shared(wm)
    ensures !(flow == Render && role == Console) ==> r == Step(wm, [])
    ensures flow == Render && role == Console ==> r == SetDefaultDevice(wm, deviceId, live)
    ensures Shared(r.next)
    ensures Consistent(wm) ==> Consistent(r.next)
  {
    if !(flow == Render && role == Console) then Step(wm, [])
    else SetDefaultDevice(wm, deviceId, live)
  }

  /** After the console render default changes, at most one device is
      default, and exactly one when the new default is mirrored. */
  lemma AtMostOneDefault(wm: WinMixer, deviceId: string, live: set<ObserverId>, a: string, b: string)
    requires Shared(wm)
    ensures var devices := SetDefaultDevice(wm, deviceId, live).next.mixer.devices;
      a in devices && b in devices && devices[a].isDefault && devices[b].isDefault ==> a == b == deviceId
    ensures var devices := SetDefaultDevice(wm, deviceId, live).next.mixer.devices;
      deviceId in devices ==> devices[deviceId].isDefault
  {
  }

  /** `CMMNotificationClient::OnDeviceRemoved` (src/WindowsVolumeMixer.cpp:1100-1116):
      the id leaves the mirror if it was there, and `removeDevice` runs
      whether or not it was. */
  function OnDeviceRemoved(wm: WinMixer, id: string, live: set<ObserverId>): (r: Step)
    ensures r.next.mirror == wm.mirror - {id}
    ensures r.next.mixer == Mixers.RemoveDevice(wm.mixer, id, live).next
    ensures r.next.sampler == wm.sampler
    ensures |r.log| == |r.next.mixer.observers|
    ensures forall i :: 0 <= i < |r.log| ==> r.log[i] == ToMixer(Delivery(r.next.mixer.observers[i], Mixers.DeviceRemoved(id)))
    ensures Shared(wm) ==> Shared(r.next)
    ensures Consistent(wm) ==> Consistent(r.next)
  {
    var mirror := if id in wm.mirror then wm.mirror - {id} else wm.mirror;
    var removed := Mixers.RemoveDevice(wm.mixer, id, live);
    var log := seq(|removed.log|, i requires 0 <= i < |removed.log| => ToMixer(removed.log[i]));
    Step(wm.(mixer := removed.next, mirror := mirror), log)
  }

  /** Applies a scalar update to the mirrored device `id`, which is also
      the published one; an id that is not mirrored is ignored. */
  function UpdateMirrored(wm: WinMixer, id: string, e: Devices.Event, live: set<ObserverId>): (r: Step)
    requires Shared(wm) && e.IsScalar()
    ensures id !in wm.mirror ==> r == Step(wm, [])
    ensures id in wm.mirror ==>
      && r.next.mirror.Keys == wm.mirror.Keys
      && r.next.mirror[id] == wm.mirror[id].(device := Devices.Update(wm.mirror[id].device, e, live).next)
      && Devices.Holds(r.next.mirror[id].device, e)
      && r.next.mirror[id].device.sessions == wm.mirror[id].device.sessions
      && (forall k :: k in wm.mirror && k != id ==> r.next.mirror[k] == wm.mirror[k])
      && r.next.mixer.observers == wm.mixer.observers
      && r.next.sampler == wm.sampler
      && |r.log| == |Devices.Update(wm.mirror[id].device, e, live).log|
      && (forall i :: 0 <= i < |r.log| ==> r.log[i] == ToDevice(id, Devices.Update(wm.mirror[id].device, e, live).log[i]))
    ensures Shared(r.next)
    ensures Consistent(wm) ==> Consistent(r.next)
  {
    if id !in wm.mirror then Step(wm, [])
    else
      var step := Devices.Update(wm.mirror[id].device, e, live);
      Devices.UpdateHolds(wm.mirror[id].device, e, live);
      var mirror := wm.mirror[id := wm.mirror[id].(device := step.next)];
      var log := seq(|step.log|, i requires 0 <= i < |step.log| => ToDevice(id, step.log[i]));
      Step(wm.(mixer := wm.mixer.(devices := Published(mirror)), mirror := mirror), log)
  }

  /** `CMMNotificationClient::OnDeviceStateChanged` (src/WindowsVolumeMixer.cpp:1118-1134):
      only a mirrored device takes the mapped state, through its own
      coalescing update. */
  function OnDeviceStateChanged(wm: WinMixer, id: string, raw: int, live: set<ObserverId>): (r: Step)
    requires Shared(wm)
    ensures id !in wm.mirror ==> r == Step(wm, [])
    ensures id in wm.mirror ==>
      var step := Devices.Update(wm.mirror[id].device, Devices.StateChange(DeviceStateFrom(raw)), live);
      && r.next.mirror.Keys == wm.mirror.Keys
      && r.next.mirror[id] == wm.mirror[id].(device := step.next)
      && r.next.mirror[id].device.state == DeviceStateFrom(raw)
      && id in r.next.mixer.devices && r.next.mixer.devices[id].state == DeviceStateFrom(raw)
      && (forall k :: k in wm.mirror && k != id ==> r.next.mirror[k] == wm.mirror[k])
      && r.next.mixer.observers == wm.mixer.observers
      && r.next.sampler == wm.sampler
      && |r.log| == |step.log|
      && (forall i :: 0 <= i < |r.log| ==> r.log[i] == ToDevice(id, step.log[i]))
    ensures Shared(r.next)
    ensures Consistent(wm) ==> Consistent(r.next)
  {
    UpdateMirrored(wm, id, Devices.StateChange(DeviceStateFrom(raw)), live)
  }

  /** `CMMNotificationClient::OnPropertyValueChanged`
      (src/WindowsVolumeMixer.cpp:1136-1158): for a mirrored device the
      description is read again and published as the name; a failed read
      throws. Any other id is ignored, whatever the read would give. */
  function OnPropertyValueChanged(wm: WinMixer, id: string, description: Result<string>, live: set<ObserverId>): (r: Result<Step>)
    requires Shared(wm)
    ensures id !in wm.mirror ==> r == Ok(Step(wm, []))
    ensures id in wm.mirror ==> (r.Ok? <==> description.Ok?)
    ensures r.Err? ==> r.error == BackendCallFailed
    ensures id in wm.mirror && r.Ok? ==>
      var step := Devices.Update(wm.mirror[id].device, Devices.NameChange(description.value), live);
      && r.value.next.mirror.Keys == wm.mirror.Keys
      && r.value.next.mirror[id] == wm.mirror[id].(device := step.next)
      && id in r.value.next.mixer.devices && r.value.next.mixer.devices[id].name == description.value
      && (forall k :: k in wm.mirror && k != id ==> r.value.next.mirror[k] == wm.mirror[k])
      && r.value.next.mixer.observers == wm.mixer.observers
      && r.value.next.sampler == wm.sampler
      && |r.value.log| == |step.log|
      && (forall i :: 0 <= i < |r.value.log| ==> r.value.log[i] == ToDevice(id, step.log[i]))
    ensures r.Ok? ==> Shared(r.value.next)
    ensures r.Ok? && Consistent(wm) ==> Consistent(r.value.next)
  {
    if id !in wm.mirror then Ok(Step(wm, []))
    else if description.Err? then Err(BackendCallFailed)
    else Ok(UpdateMirrored(wm, id, Devices.NameChange(description.value), live))
  }

  /** `WindowsVolumeMixer::setPeakSamplingPeriod` (src/WindowsVolumeMixer.cpp:946-952). */
  function SetPeakSamplingPeriod(wm: WinMixer, period: int): (r: WinMixer)
    ensures r.sampler == WorkThreads.ChangePeriod(wm.sampler, period)
    ensures r.mixer == wm.mixer && r.mirror == wm.mirror
  {
    wm.(sampler := WorkThreads.ChangePeriod(wm.sampler, period))
  }

  /** The callbacks of device `k`'s peak sample `pass`, tagged by device
      id: the device's own first, then its sessions'. */
  function TagPass(k: string, pass: WindowsDevice.PeakPass): (r: seq<Notice>)
    ensures |r| == |pass.deviceLog| + |pass.sessionLog|
    ensures forall i :: 0 <= i < |pass.deviceLog| ==> r[i] == ToDevice(k, pass.deviceLog[i])
    ensures forall i :: 0 <= i < |pass.sessionLog| ==> r[|pass.deviceLog| + i] == ToSession(k, pass.sessionLog[i])
    ensures KeyOrder.Owned(r, DeviceOf, k)
  {
    var own := seq(|pass.deviceLog|, i requires 0 <= i < |pass.deviceLog| => ToDevice(k, pass.deviceLog[i]));
    var sessions := seq(|pass.sessionLog|, i requires 0 <= i < |pass.sessionLog| => ToSession(k, pass.sessionLog[i]));
    own + sessions
  }

  /** Device `k`'s share of a mixer peak sample: the device's own peak
      sample, with its callbacks tagged by device id, the device's own
      first and then its sessions'. */
  function SampleOne(k: string, wd: WindowsDevice.WinDevice, deviceReadings: string -> Reading, sessionReadings: string -> string -> Reading, live: set<ObserverId>)
    : (r: Result<(WindowsDevice.WinDevice, seq<Notice>)>)
    requires wd.mirror <= wd.device.sessions.Keys
    ensures r.Ok? <==> deviceReadings(k).Read?
    ensures r.Err? ==> r.error == BackendCallFailed
    ensures r.Ok? ==> WindowsDevice.SameBookkeeping(wd, r.value.0)
    ensures r.Ok? ==> r.value.0.device.peak == deviceReadings(k).value
    ensures r.Ok? ==> KeyOrder.Owned(r.value.1, DeviceOf, k)
  {
    var d := WindowsDevice.SampleDevicePeak(wd, deviceReadings(k), sessionReadings(k), live);
    if d.Err? then Err(BackendCallFailed)
    else Ok((d.value.next, TagPass(k, d.value)))
  }

  /** Device `k`'s share is exactly its own device peak sample: the device
      as that pass leaves it, and that pass's callbacks tagged by `k`. */
  lemma SampleOneExact(k: string, wd: WindowsDevice.WinDevice, deviceReadings: string -> Reading, sessionReadings: string -> string -> Reading, live: set<ObserverId>)
    requires wd.mirror <= wd.device.sessions.Keys
    requires deviceReadings(k).Read?
    ensures var pass := WindowsDevice.SampleDevicePeak(wd, deviceReadings(k), sessionReadings(k), live).value;
      && SampleOne(k, wd, deviceReadings, sessionReadings, live).value.0 == pass.next
      && SampleOne(k, wd, deviceReadings, sessionReadings, live).value.1 == TagPass(k, pass)
  {
  }

  /** Every mirrored session of every device of `mirror` is a published
      one, which a device peak sample relies on. */
  predicate Samplable(mirror: map<string, WindowsDevice.WinDevice>)
  {
    forall k :: k in mirror ==> mirror[k].mirror <= mirror[k].device.sessions.Keys
  }

  /** The meter of every device of `mirror` reads successfully. */
  predicate AllRead(mirror: map<string, WindowsDevice.WinDevice>, deviceReadings: string -> Reading)
  {
    forall k :: k in mirror ==> deviceReadings(k).Read?
  }

  /** The callbacks device `k` of `mirror` sends in a successful peak
      sample; none for an id outside the mirror. */
  function SampleShare(
    mirror: map<string, WindowsDevice.WinDevice>, deviceReadings: string -> Reading,
    sessionReadings: string -> string -> Reading, live: set<ObserverId>, k: string)
    : (r: seq<Notice>)
    ensures KeyOrder.Owned(r, DeviceOf, k)
    ensures k !in mirror ==> r == []
    ensures k in mirror && mirror[k].mirror <= mirror[k].device.sessions.Keys && deviceReadings(k).Read? ==>
      r == SampleOne(k, mirror[k], deviceReadings, sessionReadings, live).value.1
  {
    if k !in mirror || !(mirror[k].mirror <= mirror[k].device.sessions.Keys) then []
    else
      var d := SampleOne(k, mirror[k], deviceReadings, sessionReadings, live);
      if d.Ok? then d.value.1 else []
  }

  /** Every device of `mirror` after sampling its meters, all reads of
      device meters having succeeded. */
  function SampleDevices(
    mirror: map<string, WindowsDevice.WinDevice>,
    deviceReadings: string -> Reading, sessionReadings: string -> string -> Reading, live: set<ObserverId>)
    : (r: map<string, WindowsDevice.WinDevice>)
    requires Samplable(mirror) && AllRead(mirror, deviceReadings)
    ensures forall k :: k in r <==> k in mirror
    ensures forall k :: k in mirror ==>
      r[k] == WindowsDevice.SampledPass(mirror[k], deviceReadings(k).value, sessionReadings(k), live).next
    ensures forall k :: k in mirror ==> WindowsDevice.SameBookkeeping(mirror[k], r[k])
    ensures forall k :: k in mirror ==> r[k].device.peak == deviceReadings(k).value
  {
    map k | k in mirror :: WindowsDevice.SampledPass(mirror[k], deviceReadings(k).value, sessionReadings(k), live).next
  }

  /** The mixer after every mirrored device sampled its meters, all reads
      of device meters having succeeded. */
  function SampleMirror(wm: WinMixer, deviceReadings: string -> Reading, sessionReadings: string -> string -> Reading, live: set<ObserverId>)
    : (r: WinMixer)
    requires Shared(wm) && Samplable(wm.mirror) && AllRead(wm.mirror, deviceReadings)
    ensures r.mirror == SampleDevices(wm.mirror, deviceReadings, sessionReadings, live)
    ensures r.mixer.observers == wm.mixer.observers
    ensures r.sampler == wm.sampler
    ensures Shared(r)
    ensures Consistent(wm) ==> Consistent(r)
  {
    var mirror := SampleDevices(wm.mirror, deviceReadings, sessionReadings, live);
    RepublishConsistent(wm, mirror, wm.sampler);
    WinMixer(wm.mixer.(devices := Published(mirror)), mirror, wm.sampler)
  }

  /** `log` holds, for each device of `wm`, exactly that device's share
      of a successful peak sample, and nothing for any other id. */
  ghost predicate SplitsBySample(log: seq<Notice>, wm: WinMixer, deviceReadings: string -> Reading, sessionReadings: string -> string -> Reading, live: set<ObserverId>)
  {
    forall k :: (KeyOrder.Select(log, DeviceOf, k)
      == if k in wm.mirror then SampleShare(wm.mirror, deviceReadings, sessionReadings, live, k) else [])
  }

  /** The callbacks of a successful mixer peak sample, in map order: each
      device's share, grouped by device with ids ascending. */
  function PeakSampleLog(wm: WinMixer, deviceReadings: string -> Reading, sessionReadings: string -> string -> Reading, live: set<ObserverId>)
    : (r: seq<Notice>)
    requires Samplable(wm.mirror) && AllRead(wm.mirror, deviceReadings)
    ensures SplitsBySample(r, wm, deviceReadings, sessionReadings, live)
    ensures KeyOrder.InKeyOrder(r, DeviceOf)
  {
    KeyOrder.Gather(wm.mirror.Keys, k => SampleShare(wm.mirror, deviceReadings, sessionReadings, live, k), DeviceOf)
  }

  /** A completed mixer peak sample: every mirrored device takes its own
      peak sample, and the callbacks go out device by device in map
      order, each device's share as `SampleOne` produces it. */
  function SampleAll(wm: WinMixer, deviceReadings: string -> Reading, sessionReadings: string -> string -> Reading, live: set<ObserverId>): (r: Step)
    requires Shared(wm) && Samplable(wm.mirror) && AllRead(wm.mirror, deviceReadings)
    ensures r.next.mirror == SampleDevices(wm.mirror, deviceReadings, sessionReadings, live)
    ensures r.next.mixer.observers == wm.mixer.observers
    ensures r.next.sampler == wm.sampler
    ensures SplitsBySample(r.log, wm, deviceReadings, sessionReadings, live)
    ensures KeyOrder.InKeyOrder(r.log, DeviceOf)
    ensures Shared(r.next)
    ensures Consistent(wm) ==> Consistent(r.next)
  {
    Step(SampleMirror(wm, deviceReadings, sessionReadings, live), PeakSampleLog(wm, deviceReadings, sessionReadings, live))
  }

  /** `WindowsVolumeMixer::peakSample` (src/WindowsVolumeMixer.cpp:954-976):
      every mirrored device samples its own meter and its sessions', in
      map order; an exception from any of them terminates the process, so
      a pass either completes, as `SampleAll`, or ends the program. */
  function PeakSample(wm: WinMixer, deviceReadings: string -> Reading, sessionReadings: string -> string -> Reading, live: set<ObserverId>): (r: Result<Step>)
    requires Shared(wm) && Samplable(wm.mirror)
    ensures r.Ok? <==> forall k :: k in wm.mirror ==> deviceReadings(k).Read?
    ensures r.Err? ==> r.error == ProcessTerminated
    ensures r.Ok? ==> r.value == SampleAll(wm, deviceReadings, sessionReadings, live)
    ensures r.Ok? ==> Shared(r.value.next)
    ensures r.Ok? && Consistent(wm) ==> Consistent(r.value.next)
  {
    if !AllRead(wm.mirror, deviceReadings) then Err(ProcessTerminated)
    else Ok(SampleAll(wm, deviceReadings, sessionReadings, live))
  }

  /** One pass of the sampling thread's loop: it samples exactly when the
      pass fires. */
  function SamplerPass(wm: WinMixer, timedOut: bool, deviceReadings: string -> Reading, sessionReadings: string -> string -> Reading, live: set<ObserverId>): (r: Result<Step>)
    requires Shared(wm) && Samplable(wm.mirror)
    ensures WorkThreads.Iterate(wm.sampler, timedOut).0 != WorkThreads.Fired ==>
      r == Ok(Step(wm.(sampler := WorkThreads.Iterate(wm.sampler, timedOut).1), []))
    ensures WorkThreads.Iterate(wm.sampler, timedOut).0 == WorkThreads.Fired ==>
      r == PeakSample(wm.(sampler := WorkThreads.Iterate(wm.sampler, timedOut).1), deviceReadings, sessionReadings, live)
    ensures r.Ok? ==> Shared(r.value.next)
    ensures r.Ok? && Consistent(wm) ==> Consistent(r.value.next)
  {
    var (tick, sampler) := WorkThreads.Iterate(wm.sampler, timedOut);
    if tick == WorkThreads.Fired then PeakSample(wm.(sampler := sampler), deviceReadings, sessionReadings, live)
    else Ok(Step(wm.(sampler := sampler), []))
  }

  /** A freshly constructed mixer never samples until a nonzero period is
      set: its passes only loop. */
  lemma NewMixerDoesNotSample(timedOut: bool, deviceReadings: string -> Reading, sessionReadings: string -> string -> Reading, live: set<ObserverId>)
    ensures SamplerPass(New(), timedOut, deviceReadings, sessionReadings, live) == Ok(Step(New(), []))
  {
  }
}
