/** Pieces of the Windows backend (src/WindowsVolumeMixer.cpp) that do not
    touch a device or a mixer: the translation of the Core Audio state
    codes, the session display-name rule, the volume clamp, and the
    outcome of a call that can throw. The numeric codes are those of the
    Windows SDK's `AudioSessionState` enumeration and `DEVICE_STATE_*`
    flags. */
module WindowsCommon {
  import Sessions
  import Devices

  /** What a backend call or a worker pass can end in besides success:
      an exception thrown out of a command (`CHECK_HRESULT`), or
      `std::terminate` in a background thread. */
  datatype Failure = BackendCallFailed | ProcessTerminated

  datatype Result<T> = Ok(value: T) | Err(error: Failure)

  /** A value read from the backend, or the failed `HRESULT` of the read. */
  datatype Reading = ReadFailed | Read(value: real)

  // AudioSessionState
  const AudioSessionStateInactive: int := 0
  const AudioSessionStateActive: int := 1
  const AudioSessionStateExpired: int := 2

  // DEVICE_STATE_* flags
  const DeviceStateActive: int := 0x1
  const DeviceStateDisabled: int := 0x2
  const DeviceStateNotPresent: int := 0x4
  const DeviceStateUnplugged: int := 0x8

  /** `from(AudioSessionState)` (src/WindowsVolumeMixer.cpp:1241-1254). */
  function SessionStateFrom(raw: int): (st: Sessions.State)
  {
    if raw == AudioSessionStateInactive then Sessions.Inactive
    else if raw == AudioSessionStateActive then Sessions.Active
    else if raw == AudioSessionStateExpired then Sessions.Expired
    else Sessions.Unknown
  }

  /** The code a known session state comes from. */
  function SessionStateCode(st: Sessions.State): int
    requires st != Sessions.Unknown
  {
    match st
    case Inactive => AudioSessionStateInactive
    case Active => AudioSessionStateActive
    case Expired => AudioSessionStateExpired
  }

  /** The session mapping is one-to-one on the three known codes and sends
      every other code, and only those, to `Unknown`. */
  lemma SessionStateRoundTrip(raw: int, st: Sessions.State)
    ensures st != Sessions.Unknown ==> SessionStateFrom(SessionStateCode(st)) == st
    ensures SessionStateFrom(raw) != Sessions.Unknown ==> SessionStateCode(SessionStateFrom(raw)) == raw
    ensures SessionStateFrom(raw) == Sessions.Unknown <==> raw !in {AudioSessionStateInactive, AudioSessionStateActive, AudioSessionStateExpired}
  {
  }

  /** `from(DWORD)` (src/WindowsVolumeMixer.cpp:1256-1270). */
  function DeviceStateFrom(raw: int): (st: Devices.State)
  {
    if raw == DeviceStateActive then Devices.Active
    else if raw == DeviceStateDisabled then Devices.Disabled
    else if raw == DeviceStateNotPresent then Devices.NotPresent
    else if raw == DeviceStateUnplugged then Devices.Unplugged
    else Devices.Unknown
  }

  /** The code a known device state comes from. */
  function DeviceStateCode(st: Devices.State): int
    requires st != Devices.Unknown
  {
    match st
    case Active => DeviceStateActive
    case Disabled => DeviceStateDisabled
    case NotPresent => DeviceStateNotPresent
    case Unplugged => DeviceStateUnplugged
  }

  /** The device mapping is one-to-one on the four known flags and sends
      every other value, and only those, to `Unknown`. */
  lemma DeviceStateRoundTrip(raw: int, st: Devices.State)
    ensures st != Devices.Unknown ==> DeviceStateFrom(DeviceStateCode(st)) == st
    ensures DeviceStateFrom(raw) != Devices.Unknown ==> DeviceStateCode(DeviceStateFrom(raw)) == raw
    ensures DeviceStateFrom(raw) == Devices.Unknown <==>
      raw !in {DeviceStateActive, DeviceStateDisabled, DeviceStateNotPresent, DeviceStateUnplugged}
  {
  }

  /** `windowName` (src/WindowsVolumeMixer.cpp:1176-1238): "System Sounds"
      for the system-sounds session; otherwise the executable's file
      description found through the process id, which is an operating
      system lookup and is passed in as `processDescription`. */
  function WindowName(isSystemSounds: bool, processDescription: string): string
  {
    if isSystemSounds then "System Sounds" else processDescription
  }

  /** The name a session publishes (src/WindowsVolumeMixer.cpp:96-101 and
      242-247): the name the backend reports unless it is empty or the
      session plays system sounds, then the window name, and the session
      id when that is empty too. */
  function DisplayName(reported: string, isSystemSounds: bool, processDescription: string, sessionId: string): (r: string)
    ensures isSystemSounds ==> r == "System Sounds"
    ensures !isSystemSounds && reported != [] ==> r == reported
    ensures !isSystemSounds && reported == [] && processDescription != [] ==> r == processDescription
    ensures !isSystemSounds && reported == [] && processDescription == [] ==> r == sessionId
    ensures r == [] ==> sessionId == []
  {
    var name := if reported == [] || isSystemSounds then WindowName(isSystemSounds, processDescription) else reported;
    if name == [] then sessionId else name
  }

  /** `std::max(0.0f, std::min(1.0f, volume))` (src/WindowsVolumeMixer.cpp:149-150, 472-473). */
  function ClampVolume(volume: real): (r: real)
    ensures 0.0 <= r <= 1.0
    ensures 0.0 <= volume <= 1.0 ==> r == volume
    ensures volume < 0.0 ==> r == 0.0
    ensures volume > 1.0 ==> r == 1.0
  {
    var capped := if volume < 1.0 then volume else 1.0;
    if capped > 0.0 then capped else 0.0
  }
}
