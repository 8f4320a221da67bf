/** `WindowsAudioSession` and `WindowsAudioDevice`'s bookkeeping
    (src/WindowsVolumeMixer.cpp:141-182, 464-558, 696-729, 783-801).
    Every Core Audio call is an oracle: a command's setter is a predicate
    saying whether the call succeeded for the value it was given, and a
    read is a `Reading`.

    A device keeps, beside its entity, the mirror of its sessions (the
    same objects as the entity's session map, so only the keys are kept
    here), one lifetime observer per session id with its "ready for
    deletion" flag, and the mailbox of its deletion worker. */
module WindowsDevice {
  import opened Observers
  import opened WindowsCommon
  import Sessions
  import Devices
  import KeyOrder
  import WorkThreads

  /** `WindowsAudioSession::changeVolume` (src/WindowsVolumeMixer.cpp:141-154):
      the volume is clamped to [0, 1], handed to the backend, and published
      only if the backend accepted it. */
  function ChangeSessionVolume(s: Sessions.Session, volume: real, setMasterVolume: real -> bool, live: set<ObserverId>): (r: Result<Sessions.Step>)
    ensures r.Ok? <==> setMasterVolume(ClampVolume(volume))
    ensures r.Err? ==> r.error == BackendCallFailed
    ensures r.Ok? ==> 0.0 <= r.value.next.volume <= 1.0 && r.value.next.volume == ClampVolume(volume)
    ensures r.Ok? ==> r.value == Sessions.Update(s, Sessions.VolumeChange(ClampVolume(volume)), live)
  {
    var v := ClampVolume(volume);
    if !setMasterVolume(v) then Err(BackendCallFailed)
    else Ok(Sessions.Update(s, Sessions.VolumeChange(v), live))
  }

  /** `WindowsAudioSession::changeMute` (src/WindowsVolumeMixer.cpp:156-167). */
  function ChangeSessionMute(s: Sessions.Session, muted: bool, setMute: bool -> bool, live: set<ObserverId>): (r: Result<Sessions.Step>)
    ensures r.Ok? <==> setMute(muted)
    ensures r.Err? ==> r.error == BackendCallFailed
    ensures r.Ok? ==> r.value.next.muted == muted
    ensures r.Ok? ==> r.value == Sessions.Update(s, Sessions.MuteChange(muted), live)
  {
    if !setMute(muted) then Err(BackendCallFailed)
    else Ok(Sessions.Update(s, Sessions.MuteChange(muted), live))
  }

  /** The peak a session publishes for a reading: a failed read counts as
      silence (src/WindowsVolumeMixer.cpp:175-180). */
  function SessionPeakOf(reading: Reading): real
  {
    if reading.Read? then reading.value else 0.0
  }

  /** `WindowsAudioSession::peakSample` (src/WindowsVolumeMixer.cpp:169-182):
      never fails; a failed read publishes 0. */
  function SampleSessionPeak(s: Sessions.Session, reading: Reading, live: set<ObserverId>): (r: Sessions.Step)
    ensures reading.Read? ==> r.next.peak == reading.value
    ensures reading.ReadFailed? ==> r.next.peak == 0.0
    ensures forall i :: 0 <= i < Sessions.FieldCount && i != 5 ==> Sessions.Snapshot(r.next)[i] == Sessions.Snapshot(s)[i]
    ensures s.peak == SessionPeakOf(reading) ==> r.next == s && r.log == []
    ensures s.peak != SessionPeakOf(reading) ==>
      && r.next.observers == Keep(s.observers, live)
      && |r.log| == |r.next.observers|
      && (forall i :: 0 <= i < |r.log| ==> r.log[i] == Delivery(r.next.observers[i], Sessions.PeakSample(SessionPeakOf(reading))))
  {
    Sessions.Update(s, Sessions.PeakSample(SessionPeakOf(reading)), live)
  }

  /** `WindowsAudioDevice::changeVolume` (src/WindowsVolumeMixer.cpp:464-477). */
  function ChangeDeviceVolume(d: Devices.Device, volume: real, setMasterVolumeLevelScalar: real -> bool, live: set<ObserverId>): (r: Result<Devices.Step>)
    ensures r.Ok? <==> setMasterVolumeLevelScalar(ClampVolume(volume))
    ensures r.Err? ==> r.error == BackendCallFailed
    ensures r.Ok? ==> 0.0 <= r.value.next.volume <= 1.0 && r.value.next.volume == ClampVolume(volume)
    ensures r.Ok? ==> r.value == Devices.Update(d, Devices.VolumeChange(ClampVolume(volume)), live)
  {
    var v := ClampVolume(volume);
    if !setMasterVolumeLevelScalar(v) then Err(BackendCallFailed)
    else Ok(Devices.Update(d, Devices.VolumeChange(v), live))
  }

  /** `WindowsAudioDevice::changeMute` (src/WindowsVolumeMixer.cpp:479-490). */
  function ChangeDeviceMute(d: Devices.Device, muted: bool, setMute: bool -> bool, live: set<ObserverId>): (r: Result<Devices.Step>)
    ensures r.Ok? <==> setMute(muted)
    ensures r.Err? ==> r.error == BackendCallFailed
    ensures r.Ok? ==> r.value.next.muted == muted
    ensures r.Ok? ==> r.value == Devices.Update(d, Devices.MuteChange(muted), live)
  {
    if !setMute(muted) then Err(BackendCallFailed)
    else Ok(Devices.Update(d, Devices.MuteChange(muted), live))
  }

  datatype WinDevice = WinDevice(
    device: Devices.Device,
    mirror: set<string>,
    lifetimes: map<string, bool>,
    worker: WorkThreads.Mailbox<string>)

  /** The device and the callbacks its own observers were sent. */
  datatype DeviceStep = DeviceStep(next: WinDevice, log: seq<Delivery<Devices.Event>>)

  /** A callback sent to an observer of one of the device's sessions. */
  datatype SessionNotice = SessionNotice(sessionId: string, delivery: Delivery<Sessions.Event>)

  /** The bookkeeping the device keeps in step: the mirror holds exactly the
      published sessions, and each of them has a lifetime observer that is
      not yet marked for deletion. */
  predicate Consistent(wd: WinDevice)
  {
    && wd.mirror == wd.device.sessions.Keys
    && forall k :: k in wd.device.sessions ==> k in wd.lifetimes && !wd.lifetimes[k]
  }

  /** `wd'` differs from `wd` at most in the published device's scalar
      fields and in the sessions' own state. */
  predicate SameBookkeeping(wd: WinDevice, wd': WinDevice)
  {
    && wd'.mirror == wd.mirror
    && wd'.lifetimes == wd.lifetimes
    && wd'.worker == wd.worker
    && wd'.device.sessions.Keys == wd.device.sessions.Keys
  }

  /** The session a callback is about. */
  function SessionOf(n: SessionNotice): string
  {
    n.sessionId
  }

  /** The callbacks of sampling session `k`, tagged with its id: exactly
      the callbacks of its own peak update. */
  function SessionShare(published: map<string, Sessions.Session>, readings: string -> Reading, live: set<ObserverId>, k: string)
    : (r: seq<SessionNotice>)
    ensures KeyOrder.Owned(r, SessionOf, k)
    ensures k !in published ==> r == []
    ensures k in published ==>
      var log := SampleSessionPeak(published[k], readings(k), live).log;
      |r| == |log| && forall i :: 0 <= i < |r| ==> r[i] == SessionNotice(k, log[i])
  {
    if k !in published then []
    else
      var log := SampleSessionPeak(published[k], readings(k), live).log;
      seq(|log|, i requires 0 <= i < |log| => SessionNotice(k, log[i]))
  }

  /** The callbacks of sampling every mirrored session, in map order: each
      session's own callbacks, grouped by session with ids ascending. */
  function MirrorSampleLog(published: map<string, Sessions.Session>, mirror: set<string>, readings: string -> Reading, live: set<ObserverId>)
    : (r: seq<SessionNotice>)
    ensures forall k :: KeyOrder.Select(r, SessionOf, k) == if k in mirror then SessionShare(published, readings, live, k) else []
    ensures forall i :: 0 <= i < |r| ==> r[i].sessionId in mirror
    ensures KeyOrder.InKeyOrder(r, SessionOf)
  {
    KeyOrder.Gather(mirror, k => SessionShare(published, readings, live, k), SessionOf)
  }

  /** The published sessions after sampling the mirrored ones: each
      mirrored session holds its new peak, every other session is as it
      was. */
  function SampleSessions(published: map<string, Sessions.Session>, mirror: set<string>, readings: string -> Reading, live: set<ObserverId>)
    : (r: map<string, Sessions.Session>)
    ensures r.Keys == published.Keys
    ensures forall k :: k in mirror && k in published ==> r[k].peak == SessionPeakOf(readings(k))
    ensures forall k :: k in mirror && k in published ==> r[k] == SampleSessionPeak(published[k], readings(k), live).next
    ensures forall k :: k in published && k !in mirror ==> r[k] == published[k]
  {
    map k | k in published ::
      if k in mirror then SampleSessionPeak(published[k], readings(k), live).next else published[k]
  }

  /** The result of a device peak sample: the device after the pass, the
      callbacks to the device's observers, and those to its sessions'. */
  datatype PeakPass = PeakPass(next: WinDevice, deviceLog: seq<Delivery<Devices.Event>>, sessionLog: seq<SessionNotice>)

  /** The successful part of a device peak sample with device meter value
      `peak`: the device peak is published, then every mirrored session
      samples its own meter, in map order. */
  function SampledPass(wd: WinDevice, peak: real, sessionReadings: string -> Reading, live: set<ObserverId>): (p: PeakPass)
    requires wd.mirror <= wd.device.sessions.Keys
    ensures p.next.device.peak == peak
    ensures SameBookkeeping(wd, p.next)
  {
    var own := Devices.Update(wd.device, Devices.PeakSample(peak), live);
    Devices.UpdateHolds(wd.device, Devices.PeakSample(peak), live);
    var sessions := SampleSessions(wd.device.sessions, wd.mirror, sessionReadings, live);
    var log := MirrorSampleLog(wd.device.sessions, wd.mirror, sessionReadings, live);
    PeakPass(wd.(device := own.next.(sessions := sessions)), own.log, log)
  }

  /** What a successful device peak sample does beyond its peaks: no other
      field of the device changes; its own observers see exactly the
      callbacks of its peak update; each mirrored session takes its own
      peak sample and its callbacks, in map order; an unmirrored session
      is untouched. */
  lemma SampledPassExact(wd: WinDevice, peak: real, sessionReadings: string -> Reading, live: set<ObserverId>)
    requires wd.mirror <= wd.device.sessions.Keys
    ensures var p := SampledPass(wd, peak, sessionReadings, live);
      && (forall i :: 0 <= i < Devices.FieldCount && i != 6 ==>
            Devices.Snapshot(p.next.device)[i] == Devices.Snapshot(wd.device)[i])
      && var own := Devices.Update(wd.device, Devices.PeakSample(peak), live);
         p.next.device.observers == own.next.observers && p.deviceLog == own.log
    ensures var p := SampledPass(wd, peak, sessionReadings, live);
      && (forall k :: k in wd.mirror ==>
            p.next.device.sessions[k] == SampleSessionPeak(wd.device.sessions[k], sessionReadings(k), live).next)
      && (forall k :: k in wd.device.sessions && k !in wd.mirror ==> p.next.device.sessions[k] == wd.device.sessions[k])
    ensures var p := SampledPass(wd, peak, sessionReadings, live);
      && (forall k :: (KeyOrder.Select(p.sessionLog, SessionOf, k)
            == if k in wd.mirror then SessionShare(wd.device.sessions, sessionReadings, live, k) else []))
      && KeyOrder.InKeyOrder(p.sessionLog, SessionOf)
  {
    var own := Devices.Update(wd.device, Devices.PeakSample(peak), live);
    Devices.UpdateHolds(wd.device, Devices.PeakSample(peak), live);
    var device := own.next.(sessions := SampleSessions(wd.device.sessions, wd.mirror, sessionReadings, live));
    assert Devices.Snapshot(device) == Devices.Snapshot(own.next);
  }

  /** `WindowsAudioDevice::peakSample` (src/WindowsVolumeMixer.cpp:544-558):
      a failed read of the device's own meter throws before anything is
      published; otherwise the device peak is published and then every
      mirrored session samples its own meter, in map order, as
      `SampledPass`. Every mirrored session must be a published one, as
      `Consistent` guarantees. */
  function SampleDevicePeak(wd: WinDevice, reading: Reading, sessionReadings: string -> Reading, live: set<ObserverId>): (r: Result<PeakPass>)
    requires wd.mirror <= wd.device.sessions.Keys
    ensures r.Ok? <==> reading.Read?
    ensures r.Err? ==> r.error == BackendCallFailed
    ensures r.Ok? ==> r.value == SampledPass(wd, reading.value, sessionReadings, live)
    ensures r.Ok? ==> r.value.next.device.peak == reading.value
    ensures r.Ok? ==> SameBookkeeping(wd, r.value.next)
    ensures r.Ok? && Consistent(wd) ==> Consistent(r.value.next)
  {
    if reading.ReadFailed? then Err(BackendCallFailed)
    else Ok(SampledPass(wd, reading.value, sessionReadings, live))
  }

  /** The outcome of a session arriving: the device and its callbacks, and
      whether a `CHECK_HRESULT` exception escaped because the lifetime
      observer could not register. */
  datatype Arrival = Arrival(next: WinDevice, log: seq<Delivery<Devices.Event>>, thrown: bool)

  /** `CAudioSessionNotification::OnSessionCreated` (src/WindowsVolumeMixer.cpp:783-801),
      also the per-session step of the device constructor (438-443): the
      new session `s` with backend id `id` overwrites the mirror and the
      published map at `id`, which notifies; only then is the lifetime
      observer built, whose constructor registers it with the backend and
      throws when that fails (560-575). `registers` is the backend's
      answer. A registered observer, not yet ready, is inserted only if
      none is held under `id`; a failed one leaves the lifetime map as it
      was, with the session already published. */
  function OnSessionCreated(wd: WinDevice, id: string, s: Sessions.Session, registers: bool, live: set<ObserverId>): (r: Arrival)
    ensures r.thrown <==> !registers
    ensures r.next.mirror == wd.mirror + {id}
    ensures id in r.next.device.sessions && r.next.device.sessions[id] == s
    ensures forall k :: k != id ==> (k in r.next.device.sessions <==> k in wd.device.sessions)
    ensures forall k :: k != id && k in wd.device.sessions ==> r.next.device.sessions[k] == wd.device.sessions[k]
    ensures Devices.Snapshot(r.next.device) == Devices.Snapshot(wd.device)
    ensures r.next.device.observers == Keep(wd.device.observers, live)
    ensures !registers ==> r.next.lifetimes == wd.lifetimes
    ensures registers ==>
      && id in r.next.lifetimes
      && (id in wd.lifetimes ==> r.next.lifetimes[id] == wd.lifetimes[id])
      && (id !in wd.lifetimes ==> !r.next.lifetimes[id])
    ensures forall k :: k != id ==> (k in r.next.lifetimes <==> k in wd.lifetimes)
    ensures forall k :: k != id && k in wd.lifetimes ==> r.next.lifetimes[k] == wd.lifetimes[k]
    ensures r.next.worker == wd.worker
    ensures |r.log| == |r.next.device.observers|
    ensures forall i :: 0 <= i < |r.log| ==> r.log[i] == Delivery(r.next.device.observers[i], Devices.SessionAdded(id, s))
    ensures Consistent(wd) && registers && (id !in wd.lifetimes || !wd.lifetimes[id]) ==> Consistent(r.next)
    ensures !registers && id !in wd.lifetimes ==> !Consistent(r.next)
  {
    var added := Devices.AddSession(wd.device, id, s, live);
    var lifetimes := if !registers || id in wd.lifetimes then wd.lifetimes else wd.lifetimes[id := false];
    Arrival(WinDevice(added.next, wd.mirror + {id}, lifetimes, wd.worker), added.log, !registers)
  }

  /** `CAudioSessionLifetimeObserver::OnStateChanged` (src/WindowsVolumeMixer.cpp:696-707)
      for the observer of session `id`, through `markSessionForDeletion`
      (492-500): only the expired code queues the id for deletion; no
      other code changes anything. */
  function OnLifetimeStateChanged(wd: WinDevice, id: string, raw: int): (r: WinDevice)
    ensures raw == AudioSessionStateExpired ==>
      && r.worker.pending == wd.worker.pending + [id]
      && r.worker.stopRequested == wd.worker.stopRequested
      && r.device == wd.device && r.mirror == wd.mirror && r.lifetimes == wd.lifetimes
    ensures raw != AudioSessionStateExpired ==> r == wd
  {
    if SessionStateFrom(raw) == Sessions.Expired then wd.(worker := WorkThreads.Queue(wd.worker, id))
    else wd
  }

  /** `std::erase_if` over the lifetime observers already marked ready
      (src/WindowsVolumeMixer.cpp:512-516). */
  function Sweep(lifetimes: map<string, bool>): (r: map<string, bool>)
    ensures forall k :: k in r <==> k in lifetimes && !lifetimes[k]
    ensures forall k :: k in r ==> !r[k]
  {
    map k | k in lifetimes && !lifetimes[k] :: lifetimes[k]
  }

  /** `WindowsAudioDevice::killSession` (src/WindowsVolumeMixer.cpp:502-542):
      erase the lifetime observers already ready, erase `id` from the
      mirror, remove the session (notify, then erase), then mark `id`'s
      lifetime observer ready. If `id` has no lifetime observer left after
      the sweep, `.at` throws and the worker calls `std::terminate`. */
  function KillSession(wd: WinDevice, id: string, live: set<ObserverId>): (r: Result<DeviceStep>)
    ensures r.Ok? <==> id in wd.lifetimes && !wd.lifetimes[id]
    ensures r.Err? ==> r.error == ProcessTerminated
    ensures r.Ok? ==>
      && id !in r.value.next.device.sessions
      && (forall k :: k != id ==> (k in r.value.next.device.sessions <==> k in wd.device.sessions))
      && (forall k :: k != id && k in wd.device.sessions ==> r.value.next.device.sessions[k] == wd.device.sessions[k])
      && Devices.Snapshot(r.value.next.device) == Devices.Snapshot(wd.device)
      && r.value.next.mirror == wd.mirror - {id}
      && id in r.value.next.lifetimes && r.value.next.lifetimes[id]
      && (forall k :: k != id ==> (k in r.value.next.lifetimes <==> k in wd.lifetimes && !wd.lifetimes[k]))
      && (forall k :: k != id && k in r.value.next.lifetimes ==> !r.value.next.lifetimes[k])
      && r.value.next.worker == wd.worker
      && r.value.next.device.observers == Keep(wd.device.observers, live)
      && |r.value.log| == |r.value.next.device.observers|
      && (forall i :: 0 <= i < |r.value.log| ==>
            r.value.log[i] == Delivery(r.value.next.device.observers[i], Devices.SessionRemoved(id)))
    ensures r.Ok? && Consistent(wd) ==> Consistent(r.value.next)
    ensures Consistent(wd) && id in wd.device.sessions ==> r.Ok?
  {
    var swept := Sweep(wd.lifetimes);
    var mirror := wd.mirror - {id};
    var removed := Devices.RemoveSession(wd.device, id, live);
    if id !in swept then Err(ProcessTerminated)
    else
      var marked := swept[id := true];
      Ok(DeviceStep(WinDevice(removed.next, mirror, marked, wd.worker), removed.log))
  }

  /** One pass of the device's deletion worker: take the front id, if any,
      and kill that session. A pass that blocks or exits changes nothing. */
  function WorkerPass(wd: WinDevice, live: set<ObserverId>): (r: Result<DeviceStep>)
    ensures wd.worker.pending == [] ==> r == Ok(DeviceStep(wd, []))
    ensures wd.worker.pending != [] ==>
      && var id := wd.worker.pending[0];
      && var rest := wd.worker.(pending := wd.worker.pending[1..]);
      && r == KillSession(wd.(worker := rest), id, live)
  {
    var (take, worker) := WorkThreads.Next(wd.worker);
    if take.Run? then KillSession(wd.(worker := worker), take.item, live)
    else Ok(DeviceStep(wd, []))
  }

  /** The lifetime observer of a killed session survives the pass that
      killed it, marked ready, and is erased by the next pass. */
  lemma DeletionOnePassLater(wd: WinDevice, a: string, b: string, live: set<ObserverId>)
    requires Consistent(wd)
    requires a in wd.device.sessions && b in wd.device.sessions && a != b
    ensures KillSession(wd, a, live).Ok?
    ensures a in KillSession(wd, a, live).value.next.lifetimes
    ensures KillSession(KillSession(wd, a, live).value.next, b, live).Ok?
    ensures a !in KillSession(KillSession(wd, a, live).value.next, b, live).value.next.lifetimes
  {
    var first := KillSession(wd, a, live).value.next;
    assert b in first.device.sessions;
  }

  /** A session whose expiry is reported twice is queued twice; the second
      pass sweeps the observer the first pass marked ready, so `.at` finds
      nothing and the process terminates. */
  lemma ExpiredTwiceTerminates(wd: WinDevice, id: string, live: set<ObserverId>)
    requires id in wd.lifetimes && !wd.lifetimes[id]
    ensures KillSession(wd, id, live).Ok?
    ensures KillSession(KillSession(wd, id, live).value.next, id, live) == Err(ProcessTerminated)
  {
  }

  /** A session of a consistent device whose lifetime observer reports
      `Expired` leaves the published map after one worker pass; the
      expiry itself publishes nothing, and the pass sends one
      `onAudioSessionRemoved` for it to each live observer. */
  lemma ExpiryRemovesSession(wd: WinDevice, id: string, live: set<ObserverId>)
    requires Consistent(wd) && wd.worker.pending == []
    requires id in wd.device.sessions
    ensures OnLifetimeStateChanged(wd, id, AudioSessionStateExpired).device == wd.device
    ensures WorkerPass(OnLifetimeStateChanged(wd, id, AudioSessionStateExpired), live).Ok?
    ensures
      var r := WorkerPass(OnLifetimeStateChanged(wd, id, AudioSessionStateExpired), live).value;
      && id !in r.next.device.sessions
      && |r.next.device.sessions| == |wd.device.sessions| - 1
      && r.next.worker.pending == []
      && Consistent(r.next)
      && r.next.device.observers == Keep(wd.device.observers, live)
      && |r.log| == |r.next.device.observers|
      && (forall i :: 0 <= i < |r.log| ==> r.log[i] == Delivery(r.next.device.observers[i], Devices.SessionRemoved(id)))
  {
    var queued := OnLifetimeStateChanged(wd, id, AudioSessionStateExpired);
    assert queued.worker.pending == [id];
    var r := WorkerPass(queued, live).value;
    assert r.next.device.sessions.Keys == wd.device.sessions.Keys - {id};
  }
}
