# vmx volume mixer — a Dafny model

vmx publishes the audio state of a machine as a three-level hierarchy of
observable entities:

- a `VolumeMixer` owns a map of `AudioDevice`s keyed by device id;
- each device owns a map of `AudioSession`s keyed by session id;
- every entity keeps scalar fields and a list of weakly held observers.

This project models that hierarchy, and the sequential bookkeeping of the
Windows backend around it, as pure functions over immutable values.

The entity/observer core is `src/VolumeMixer.cpp` and
`include/vmx/VolumeMixer.h`.

- An observer is an id (`Observers.ObserverId`).
- Whether an observer is still alive is a set `live` passed to every
  operation. A weak entry is expired exactly when its id is not in `live`.
- Every callback the source hands to a detached thread becomes one
  `Delivery(observer, event)` in an ordered log. Every operation returns
  that log next to the new entity.
- `update*` is one `Update(entity, event, live)`. The event names the field
  and carries the value.
- An entity's scalar fields, as the callbacks that report them in replay
  order, are its `Snapshot`.
- The iteration order of a `std::map<std::string, …>` is `KeyOrder.Less`
  (lexicographic, a proper prefix first). `KeyOrder.Ordered` lists a key
  set in that order.

The Windows backend is `src/WindowsVolumeMixer.cpp`.

- Each Core Audio call is an oracle passed in as a parameter:
  - a setter is a predicate saying whether the call succeeded;
  - a read is a `Reading` (failed, or a value);
  - the results of operating-system lookups are string parameters.
- A thrown `CHECK_HRESULT` is `Err(BackendCallFailed)`. A `std::terminate`
  is `Err(ProcessTerminated)`.
  `WindowsDevice.OnSessionCreated` is the exception: its `CHECK_HRESULT`
  fires after the session is already published, so the result carries a
  `thrown` flag next to the state it leaves behind.
- A `WindowsDevice.WinDevice` pairs the published device with three pieces
  of bookkeeping:
  - the keys of its session mirror;
  - one lifetime observer per session id, with its ready-for-deletion flag;
  - the mailbox of its deletion worker.
- A `WindowsMixer.WinMixer` pairs the published mixer with its device
  mirror and its peak-sampling thread.
- Both levels have a `Consistent` invariant. At the mixer level it
  includes `Shared`: the mirror holds exactly the published devices, and
  each backend device is the object published under its id.
  - Every mixer operation keeps `Shared`, and keeps `Consistent` when it
    held before.
  - A device peak sample and a session kill keep a device's `Consistent`.
  - A session arrival keeps it only when the lifetime observer registers
    and the id holds no observer already marked ready. A failed
    registration of a new id breaks it: the session is published with no
    lifetime observer, as in the source.
- The callbacks an operation sends to several entities are one log. Its
  contract states each entity's share (`KeyOrder.Select`) and that the
  shares come grouped in ascending key order (`KeyOrder.InKeyOrder`).
  Together these fix the whole log.

The two helper threads of `include/vmx/WindowsVolumeMixer.h` are state
machines with the locking and timing taken out:

- `QueuedWorkThread` becomes `WorkThreads.Mailbox`;
- `PeriodicWorkThread` becomes `WorkThreads.Periodic`.

Each function is one step taken under the thread's lock.

Modules, in dependency order:

| module | file |
|---|---|
| `KeyOrder` | key_order.dfy |
| `Observers` | observers.dfy |
| `Sessions` | sessions.dfy |
| `Devices` | devices.dfy |
| `Mixers` | mixers.dfy |
| `WorkThreads` | work_threads.dfy |
| `WindowsCommon` | windows_common.dfy |
| `WindowsDevice` | windows_device.dfy |
| `WindowsMixer` | windows_mixer.dfy |

## Model

| member | source | states |
|---|---|---|
| Observers.Notify | src/VolumeMixer.cpp:10-26 | Walking the list keeps exactly the live entries, in order. Each survivor, and no one else, gets one callback with the event, in list order. |
| Observers.Keep | src/VolumeMixer.cpp:13-25 | The entries kept all belong to the kept set. Each kept observer occurs as often as before. The result is an order-preserving subsequence of the list. |
| Observers.KeepUnique | src/VolumeMixer.cpp:13-25 | Any list with those three properties is exactly `Keep`'s result. The contract therefore pins the pruned list down completely. |
| Observers.KeepIdempotent | src/VolumeMixer.cpp:13-25 | Pruning an already pruned list erases nothing. |
| Observers.Register | src/VolumeMixer.cpp:44-53 | If some entry already resolves to the observer, the list is unchanged. Otherwise the observer is appended at the back. Afterwards some entry resolves to it, no live observer is entered twice, and expired entries are not pruned. |
| Observers.Unregister | src/VolumeMixer.cpp:72-83 | Every remaining entry is live and is not the removed observer. Every other live observer keeps its count. The survivors keep their order. |
| Observers.UnregisteredHearsNothing | src/VolumeMixer.cpp:72-83 | After unregistering `o`, a notification sends `o` nothing. |
| Sessions.New | include/vmx/VolumeMixer.h:57-63 | A new session reports name `""`, icon path `""`, state `Unknown`, volume 0, not muted, peak 0, and has no observers. |
| Sessions.Update | src/VolumeMixer.cpp:86-156 | An unchanged value is a full no-op: the entity, its observer list and the log stay as they were, and nothing is pruned. A new value is stored in its own field, and every other field is unchanged. Expired entries are erased and the rest keep their order. Each live observer gets exactly one callback carrying the value. |
| Sessions.UpdateTwice | src/VolumeMixer.cpp:93 | Repeating an update changes nothing and dispatches nothing. |
| Sessions.AddObserver | src/VolumeMixer.cpp:34-64 | Leaves the list unchanged if the observer is already registered, and otherwise appends it; nothing is pruned and no live observer is duplicated. With `bNotifyNow` it sends the new observer the six current values in the order name, icon path, state, volume, mute, peak. Without it, it sends nothing. No field changes. |
| Sessions.RemoveObserver | src/VolumeMixer.cpp:66-84 | No remaining entry is expired or resolves to the removed observer. The other live entries keep their counts and order. No field changes. |
| Sessions.RemovedObserverNotNotified | src/VolumeMixer.cpp:66-95 | After `removeObserver(o)`, the next update sends `o` nothing. |
| Sessions.SnapshotHolds | include/vmx/VolumeMixer.h:57-62 | Each replayed callback carries its field's current value. |
| Devices.New | include/vmx/VolumeMixer.h:116-124 | A new device has the session's initial fields, is not default, and has no observers and no sessions. |
| Devices.Update | src/VolumeMixer.cpp:217-300 | The same coalescing, store-and-notify and pruning behaviour as for sessions, over the seven device fields. The session map is never touched. |
| Devices.UpdateHolds | src/VolumeMixer.cpp:217-300 | After any update the field holds the new value, and the session map is unchanged. |
| Devices.UpdateReports | src/VolumeMixer.cpp:217-300 | Every callback of a device update carries the updated value. |
| Devices.UpdateTwice | src/VolumeMixer.cpp:224 | Repeating a device update changes nothing and dispatches nothing. |
| Devices.SessionReplay | src/VolumeMixer.cpp:187-193 | One session-added event per session. Each pairs a key with the session stored under it. |
| Devices.SessionReplayInMapOrder | src/VolumeMixer.cpp:187-193 | The replay visits the sessions in map order: keys strictly ascend, and every key appears. |
| Devices.AddObserver | src/VolumeMixer.cpp:159-195 | With `bNotifyNow`, the new observer gets the seven fields in the order name, icon path, state, default, volume, mute, peak. It then gets one session-added event per session, in key order. Without it, nothing is sent. The list is unchanged if the observer is already registered, and otherwise gains it at the back. |
| Devices.RemoveObserver | src/VolumeMixer.cpp:197-215 | As for sessions; the fields and the session map are unchanged. |
| Devices.AddSession | src/VolumeMixer.cpp:302-312 | The id maps to the new session, overwriting any earlier one. Every other key is unchanged. Each live observer is told the id and the stored session. |
| Devices.RemoveSession | src/VolumeMixer.cpp:314-323 | Every live observer is told of the removal, even for an absent id. Afterwards the id is absent and every other key is unchanged. |
| Devices.AddThenRemoveSession | src/VolumeMixer.cpp:302-323 | Removing a session just added under a fresh id restores the session map. |
| Mixers.New | include/vmx/VolumeMixer.h:138-153 | A new mixer has no observers and no devices; it carries no scalar state. |
| Mixers.DeviceReplay | src/VolumeMixer.cpp:347-353 | One device-added event per device. Each pairs a key with the device stored under it. |
| Mixers.DeviceReplayInMapOrder | src/VolumeMixer.cpp:347-353 | The replay visits the devices in map order: keys strictly ascend, and every key appears. |
| Mixers.Welcome | src/VolumeMixer.cpp:347-353 | The new observer gets one device-added callback per stored device, each with the device stored under its id, ids strictly ascending. |
| Mixers.AddObserver | src/VolumeMixer.cpp:326-354 | The list is unchanged if the observer is already registered, and otherwise gains it at the back; nothing is pruned and no live observer is duplicated. With `bNotifyNow` it replays every device to the new observer in key order. Without it, nothing is sent. The device map is unchanged. |
| Mixers.RemoveObserver | src/VolumeMixer.cpp:356-374 | As for sessions; the device map is unchanged. |
| Mixers.AddDevice | src/VolumeMixer.cpp:376-386 | The id maps to the new device, overwriting any earlier one. Every other key is unchanged. Each live observer is told the id and the stored device. |
| Mixers.RemoveDevice | src/VolumeMixer.cpp:388-397 | Every live observer is told of the removal, even for an absent id. Afterwards the id is absent and every other key is unchanged. |
| Mixers.AddThenRemoveDevice | src/VolumeMixer.cpp:376-397 | Removing a device just added under a fresh id restores the device map. |
| KeyOrder.Ordered | include/vmx/VolumeMixer.h:124 | Lists a key set once per key, strictly ascending under `std::string`'s `operator<`. This is the order in which a range-for visits a `std::map`. |
| KeyOrder.LessTransitive | include/vmx/VolumeMixer.h:124 | String order is transitive. Irreflexivity, asymmetry and totality have companion lemmas, so the order is strict and total. |
| KeyOrder.FirstExists | include/vmx/VolumeMixer.h:124 | A non-empty key set has a least key, the first one the map visits. |
| KeyOrder.Entries | include/vmx/VolumeMixer.h:124 | A range-for over a map yields one entry per key, each with the value stored under that key, and every key appears. |
| KeyOrder.EntriesAscend | include/vmx/VolumeMixer.h:124 | The entries of a range-for come with strictly ascending keys. |
| KeyOrder.ConcatSelect | src/WindowsVolumeMixer.cpp:553-556 | When a range-for over a map produces, at each key, callbacks about that key only, the callbacks about any one key in the whole output are exactly what that key produced, and nothing for a key outside the map. |
| KeyOrder.ConcatInKeyOrder | src/WindowsVolumeMixer.cpp:553-556 | The output of such a range-for is grouped by key, keys ascending. |
| KeyOrder.Gather | src/WindowsVolumeMixer.cpp:553-556 | The output of a range-for over a key set: each key's share is exactly what that key produced, every element belongs to a key of the set, and the shares come grouped in ascending key order. |
| WorkThreads.Queue | include/vmx/WindowsVolumeMixer.h:37-44 | `queue(x)` appends `x` at the back. Nothing else changes. |
| WorkThreads.Next | include/vmx/WindowsVolumeMixer.h:47-62 | A pass takes the front item iff the queue is non-empty, even after a stop request. It exits iff the queue is empty and a stop was requested; otherwise it blocks. |
| WorkThreads.Drain | include/vmx/WindowsVolumeMixer.h:49-61 | Running the worker until it would wait hands the work function exactly the queued items, front first, with none dropped. It ends by exiting iff a stop was requested. |
| WorkThreads.QueueThenTake | include/vmx/WindowsVolumeMixer.h:37-60 | An item queued behind pending work does not change what the next pass takes, and stays at the back. |
| WorkThreads.ChangePeriod | include/vmx/WindowsVolumeMixer.h:82-91 | Sets the period, raises the updated flag, and leaves the stop request alone. |
| WorkThreads.Iterate | include/vmx/WindowsVolumeMixer.h:94-126 | A pass waits iff it has no update, no stop request, and either a zero period or an unexpired deadline. A pass that wakes clears the flag. It returns without calling the function iff a stop was requested. It then skips iff the period is zero, and fires otherwise. |
| WorkThreads.PausedNeverFires | include/vmx/WindowsVolumeMixer.h:101-121 | With a zero period, and no period change or stop, the periodic function is never called. |
| WorkThreads.RunningFiresOncePerTimeout | include/vmx/WindowsVolumeMixer.h:106-124 | With a nonzero period and no stop, the function is called exactly once per pass whose deadline passed. |
| WorkThreads.StopWinsOverChange | include/vmx/WindowsVolumeMixer.h:111-116 | A stop request beats a period change, in either order: the next pass returns without firing. |
| WorkThreads.ChangeWakesPausedLoop | include/vmx/WindowsVolumeMixer.h:82-124 | A period change wakes a paused loop at once. The pass fires iff the new period is nonzero. |
| WindowsCommon.SessionStateRoundTrip | src/WindowsVolumeMixer.cpp:1241-1254 | The three known session state codes map one-to-one onto Inactive, Active and Expired. Every other code, and only those, maps to Unknown. |
| WindowsCommon.DeviceStateRoundTrip | src/WindowsVolumeMixer.cpp:1256-1270 | The four known device state flags map one-to-one onto Active, Disabled, NotPresent and Unplugged. Every other value, and only those, maps to Unknown. |
| WindowsCommon.DisplayName | src/WindowsVolumeMixer.cpp:96-101 | The system-sounds session is named "System Sounds". Otherwise the reported name is used; if it is empty, the process description; if that is empty too, the session id. The name is empty only if the id is. |
| WindowsCommon.ClampVolume | src/WindowsVolumeMixer.cpp:149-150 | The result lies in [0, 1]. It equals the input inside that range, 0 below it and 1 above it. |
| WindowsDevice.ChangeSessionVolume | src/WindowsVolumeMixer.cpp:141-154 | The clamped volume goes to the backend. The session changes only if the call succeeds, and then publishes the clamped value. Otherwise the result is the thrown error. |
| WindowsDevice.ChangeSessionMute | src/WindowsVolumeMixer.cpp:156-167 | The mute state is published iff the backend accepts it. |
| WindowsDevice.SampleSessionPeak | src/WindowsVolumeMixer.cpp:169-182 | A session sample never fails. It publishes the reading, or 0 when the read fails, and no other field changes. An unchanged peak is a full no-op. A changed one prunes the expired observers, and each survivor gets one callback with the new peak. |
| WindowsDevice.ChangeDeviceVolume | src/WindowsVolumeMixer.cpp:464-477 | As for sessions, on the endpoint volume. |
| WindowsDevice.ChangeDeviceMute | src/WindowsVolumeMixer.cpp:479-490 | As for sessions, on the endpoint mute. |
| WindowsDevice.SessionShare | src/WindowsVolumeMixer.cpp:555 | A sampled session's callbacks are exactly those of its own peak sample, tagged with its id. An unpublished id sends nothing. |
| WindowsDevice.MirrorSampleLog | src/WindowsVolumeMixer.cpp:553-556 | Sampling the mirror sends, for each mirrored session, exactly that session's callbacks, and nothing about any other id. The callbacks come grouped by session, ids ascending. |
| WindowsDevice.SampleSessions | src/WindowsVolumeMixer.cpp:553-556 | Every mirrored session becomes exactly its own session peak sample's result, so it publishes its reading, or 0 on a failed read. Every other published session stays as it was, and no key is added or dropped. |
| WindowsDevice.SampledPass | src/WindowsVolumeMixer.cpp:550-557 | After a successful device read the device holds the read peak. Its mirror, lifetime observers, worker and session keys are unchanged. |
| WindowsDevice.SampledPassExact | src/WindowsVolumeMixer.cpp:550-557 | No other device field changes. The device's own observers are pruned and notified exactly as by its peak update. Each mirrored session is its own session peak sample's result, and every unmirrored session is untouched. The session callbacks hold each mirrored session's share, in ascending id order. |
| WindowsDevice.SampleDevicePeak | src/WindowsVolumeMixer.cpp:544-558 | A failed device read throws before anything is published. Otherwise the result is exactly `SampledPass` with the read peak. The bookkeeping stays as it was, and a consistent device stays consistent. |
| WindowsDevice.OnSessionCreated | src/WindowsVolumeMixer.cpp:783-801 | The mirror and the session map are overwritten at the id, and no other key changes. No scalar changes; the device's expired observers are pruned and each survivor is told of the session. The exception escapes iff the lifetime observer fails to register, and then the lifetime map is unchanged. Otherwise the lifetime map keeps an existing entry, since `insert` does not overwrite, or gains one that is not ready. Consistency is kept when the observer registers and the id has no ready one. A failed registration for a new id leaves the device inconsistent. |
| WindowsDevice.OnLifetimeStateChanged | src/WindowsVolumeMixer.cpp:696-707 | Only the Expired code queues the id for deletion, at the back of the worker's queue. Every other code changes nothing. |
| WindowsDevice.Sweep | src/WindowsVolumeMixer.cpp:512-516 | Keeps exactly the lifetime observers not yet marked ready. |
| WindowsDevice.KillSession | src/WindowsVolumeMixer.cpp:502-542 | Succeeds iff the id has a lifetime observer not yet ready; otherwise `.at` throws and the process terminates. On success, the ready observers are erased and the id leaves the mirror and the session map. Every live observer is told of the removal, and the id's observer is now marked ready; every other surviving observer is not ready. The consistency invariant is kept, and a session of a consistent device can always be killed. |
| WindowsDevice.WorkerPass | src/WindowsVolumeMixer.cpp:502-542 | A worker pass kills the session at the front of the queue. With nothing queued, it changes nothing. |
| WindowsDevice.DeletionOnePassLater | src/WindowsVolumeMixer.cpp:512-528 | The lifetime observer of a killed session survives that pass and is erased by the next kill. |
| WindowsDevice.ExpiredTwiceTerminates | src/WindowsVolumeMixer.cpp:512-541 | Killing the same id twice terminates the process on the second pass. The first pass marked the observer ready, so the second pass sweeps it before `.at` looks it up. |
| WindowsDevice.ExpiryRemovesSession | src/WindowsVolumeMixer.cpp:492-542 | On a consistent device, an Expired report followed by one worker pass removes the session. It tells each live observer once and leaves the device consistent with an empty queue. |
| WindowsMixer.New | src/WindowsVolumeMixer.cpp:871-873 | A new mixer is consistent and empty. Its sampling thread starts paused, with period 0. |
| WindowsMixer.AddEnumeratedDevice | src/WindowsVolumeMixer.cpp:910-929 | An enumerated device is default iff its id is the default endpoint's id. It is added with `addDevice`, then mirrored under the same id. Other mirrored devices and the sampling thread are unchanged. `Shared` is kept, and so is consistency when the new device is consistent. |
| WindowsMixer.DefaultOne | src/WindowsVolumeMixer.cpp:1043 | One device's default flag becomes "its id equals the new id". No other field, no session and no bookkeeping changes. A device whose flag already held is unchanged. One whose flag flips prunes its expired observers. |
| WindowsMixer.SetDefaults | src/WindowsVolumeMixer.cpp:1041-1044 | Every mirrored device becomes its own `DefaultOne` result, so its flag is "its id equals the new id". No device is added or dropped. The mixer's observers and the sampling thread are unchanged. `Shared` and consistency are kept. |
| WindowsMixer.DefaultNotices | src/WindowsVolumeMixer.cpp:1043 | A device's callbacks are all about that device. An id outside the mirror sends nothing. |
| WindowsMixer.DefaultNoticesExact | src/WindowsVolumeMixer.cpp:1043 | A device whose flag already held sends nothing. One whose flag flips sends one callback per surviving observer, in list order, with the new flag. Every callback reports the device's new flag. |
| WindowsMixer.DefaultChangeLog | src/WindowsVolumeMixer.cpp:1041-1044 | Each mirrored device's share of the log is exactly its own callbacks, and nothing is about any other id. The shares come in map order, and every callback reports its device's new flag. |
| WindowsMixer.SetDefaultDevice | src/WindowsVolumeMixer.cpp:1041-1044 | Every mirrored device is its `DefaultOne` result. The log is split by device as in `DefaultChangeLog`, in map order. Observers of the mixer and the sampling thread are unchanged. `Shared` and consistency are kept. |
| WindowsMixer.OnDefaultDeviceChanged | src/WindowsVolumeMixer.cpp:1029-1049 | A change for any flow or role other than console render changes nothing and notifies no one. A console render change is exactly `SetDefaultDevice`. `Shared` and consistency are kept. |
| WindowsMixer.AtMostOneDefault | src/WindowsVolumeMixer.cpp:1036-1044 | After a console render default change, any two default devices are the same device, and it has the new default's id. If the new default is published, it is default. |
| WindowsMixer.OnDeviceRemoved | src/WindowsVolumeMixer.cpp:1100-1116 | The id leaves the mirror if present. `removeDevice` always runs, so every live observer is told. The sampling thread is unchanged, and `Shared` and consistency are kept. |
| WindowsMixer.UpdateMirrored | src/WindowsVolumeMixer.cpp:1118-1158 | An id outside the mirror changes nothing. A mirrored device takes the update in the mirror and the published map. Its sessions, the other devices, the mixer's observers and the sampling thread are unchanged. Its own callbacks are the update's, tagged with its id. `Shared` and consistency are kept. |
| WindowsMixer.OnDeviceStateChanged | src/WindowsVolumeMixer.cpp:1118-1134 | Only a mirrored device changes. It takes the mapped state in both the mirror and the published map. Nothing else changes, and each callback is its state update's. Any other id changes nothing. `Shared` and consistency are kept. |
| WindowsMixer.OnPropertyValueChanged | src/WindowsVolumeMixer.cpp:1136-1158 | For a mirrored device, a failed description read throws. Otherwise the device republishes the description as its name, as `OnDeviceStateChanged` does for the state. Any other id changes nothing, whatever the read would give. |
| WindowsMixer.SetPeakSamplingPeriod | src/WindowsVolumeMixer.cpp:946-952 | Forwards the period to the sampling thread. Nothing else changes. |
| WindowsMixer.TagPass | src/WindowsVolumeMixer.cpp:550-557 | A device's share of a peak sample is its own callbacks first, then its sessions', all tagged with its id. |
| WindowsMixer.SampleOne | src/WindowsVolumeMixer.cpp:960 | One device's sample succeeds iff its own read does. It then publishes that reading, keeps the device's bookkeeping, and all its callbacks are about that device. |
| WindowsMixer.SampleOneExact | src/WindowsVolumeMixer.cpp:960 | A successful share is exactly the device's own peak sample: the device as that pass leaves it, and that pass's callbacks tagged with its id. |
| WindowsMixer.SampleShare | src/WindowsVolumeMixer.cpp:958-962 | A mirrored device's share of a successful mixer sample is its `SampleOne` callbacks. An id outside the mirror sends nothing. |
| WindowsMixer.SampleDevices | src/WindowsVolumeMixer.cpp:958-962 | When every device read succeeds, every mirrored device becomes its own `SampledPass` result, with its reading as peak and its bookkeeping unchanged. No device is added or dropped. |
| WindowsMixer.SampleMirror | src/WindowsVolumeMixer.cpp:958-962 | The mirror becomes `SampleDevices`' result and is republished. The mixer's observers and the sampling thread are unchanged. `Shared` and consistency are kept. |
| WindowsMixer.PeakSampleLog | src/WindowsVolumeMixer.cpp:958-962 | Each mirrored device's share of the log is exactly its `SampleShare`, and nothing is about any other id. The shares come in map order. |
| WindowsMixer.SampleAll | src/WindowsVolumeMixer.cpp:954-976 | A completed pass: the mirror is `SampleDevices`' result, and the log is split by device as in `PeakSampleLog`, in map order. The mixer's observers and the sampling thread are unchanged. `Shared` and consistency are kept. |
| WindowsMixer.PeakSample | src/WindowsVolumeMixer.cpp:954-976 | Succeeds iff every mirrored device's own read succeeds; otherwise the process terminates. On success the result is exactly `SampleAll`. `Shared` and consistency are kept. |
| WindowsMixer.SamplerPass | src/WindowsVolumeMixer.cpp:954-976 | One pass of the sampling loop samples all devices exactly when the pass fires. Otherwise it only advances the thread. `Shared` and consistency are kept. |
| WindowsMixer.NewMixerDoesNotSample | src/WindowsVolumeMixer.cpp:873 | A freshly built mixer's sampling loop does not sample. |

## Left out

- Threads, locks, condition variables and stop tokens are left out because they are concurrency:
  - the detached thread that runs each callback is modelled as the order of the delivery log;
  - each worker loop is modelled as one step at a time.
- Wall-clock deadlines are left out because they are timing. `WorkThreads.Iterate` takes "the deadline has passed" as a boolean.
- COM and WASAPI calls (activation, registration, `AddRef`/`Release`, `SmartComPtr`, `CoInitializer`) are left out because they are foreign APIs. Their success is an oracle parameter, and their values are `Reading`s.
- `utf8_encode` is left out because it is an OS conversion. Ids, names and descriptions are already strings.
- `windowName`'s process and version-info lookup is left out because it is an OS call. It is the `processDescription` parameter; only its "System Sounds" branch is modelled.
- The `WindowsAudioSession` and `WindowsAudioDevice` constructors' reads of ids, names, volumes and states are left out because they are sequences of COM reads feeding `update*`. Only two pieces are modelled:
  - the name rule (`WindowsCommon.DisplayName`);
  - the per-session registration step (`WindowsDevice.OnSessionCreated`).
- The `CAudioSessionEvents` and `CAudioEndpointVolumeCallback` forwarding callbacks are left out because each only forwards a backend value to one `update*`, which is `Sessions.Update` or `Devices.Update`.
- `OnDeviceAdded` is left out because its body is commented out and does nothing.
- The null `GetDisplayName` string (src/WindowsVolumeMixer.cpp:94) is left out because a string parameter is never null.
- Float semantics of volume and peak are left out because they are floating point. The model uses reals, so there is no rounding and no NaN: a NaN's `m_volume == volume` test would always fail.
- Session and device objects are shared through `shared_ptr` in the source but are values here. The mirrors share the published objects, so:
  - a session mirror is the key set of the published map;
  - a device mirror publishes each device again through `WindowsMixer.Published`;
  - both are tied to the published map by the `Consistent` invariants.
- `WindowsDevice.SampleDevicePeak`, `WindowsMixer.SampleOne`, `WindowsMixer.DefaultNotices`: the exact content of each share of the log is stated by the lemmas `WindowsDevice.SampledPassExact`, `WindowsMixer.SampleOneExact` and `WindowsMixer.DefaultNoticesExact` rather than by the functions' own contracts, which keeps each proof small.
- `WindowsDevice.SampleDevicePeak`: it requires every mirrored session id to be published. In the source the mirror holds the published objects themselves, so the requirement always holds there. Here `WindowsDevice.Consistent` implies it.
- `WindowsMixer.PeakSample`: it requires `Shared` and every device's mirrored sessions to be published (`Samplable`). Both hold in the source, where the mirrors hold the published objects, and `WindowsMixer.Consistent` implies both. `SamplerPass`, `SampleAll` and `SampleMirror` require the same.
- `WindowsMixer.OnDefaultDeviceChanged`: it and the other notification handlers that write a device back (`OnDeviceStateChanged`, `OnPropertyValueChanged`, `UpdateMirrored`, `SetDefaultDevice`, `SetDefaults`) require `Shared`, for the same reason. Their contracts do not ask for the devices' own bookkeeping to be consistent.
- Destructors and unregistration are left out because they only release COM resources.
- The example FTXUI application is left out because it is presentation code that only consumes the observer interface.
