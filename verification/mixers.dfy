/** `vmx::VolumeMixer`: no scalar state of its own, only an observer list
    and the map of devices (include/vmx/VolumeMixer.h:127-154,
    src/VolumeMixer.cpp:325-397). */
module Mixers {
  import opened Observers
  import Devices
  import KeyOrder

  /** `VolumeMixer::Observer`'s callbacks. */
  datatype Event =
    | DeviceAdded(deviceId: string, device: Devices.Device)
    | DeviceRemoved(deviceId: string)

  datatype Mixer = Mixer(observers: seq<ObserverId>, devices: map<string, Devices.Device>)

  /** The new mixer and the callbacks an operation dispatched. */
  datatype Step = Step(next: Mixer, log: seq<Delivery<Event>>)

  /** A default-constructed mixer. */
  function New(): (m: Mixer)
    ensures |m.observers| == 0 && |m.devices| == 0
  {
    Mixer([], map[])
  }

  /** One `onAudioDeviceAdded` per device, in map order. */
  function DeviceReplay(devices: map<string, Devices.Device>): (r: seq<Event>)
    ensures |r| == |devices|
    ensures forall i :: 0 <= i < |r| ==> r[i].DeviceAdded? && r[i].deviceId in devices && devices[r[i].deviceId] == r[i].device
  {
    var entries := KeyOrder.Entries(devices);
    seq(|entries|, i requires 0 <= i < |entries| => DeviceAdded(entries[i].0, entries[i].1))
  }

  /** The replay visits every stored device once, in map order: ids
      strictly ascend and every key appears. */
  lemma DeviceReplayInMapOrder(devices: map<string, Devices.Device>)
    ensures forall i, j :: 0 <= i < j < |DeviceReplay(devices)| ==>
      KeyOrder.Less(DeviceReplay(devices)[i].deviceId, DeviceReplay(devices)[j].deviceId)
    ensures forall k :: k in devices ==> exists i :: 0 <= i < |DeviceReplay(devices)| && DeviceReplay(devices)[i].deviceId == k
  {
    var entries := KeyOrder.Entries(devices);
    KeyOrder.EntriesAscend(devices);
    var r := DeviceReplay(devices);
    forall i, j | 0 <= i < j < |r|
      ensures KeyOrder.Less(r[i].deviceId, r[j].deviceId)
    {
      assert r[i].deviceId == entries[i].0 && r[j].deviceId == entries[j].0;
    }
    forall k | k in devices
      ensures exists i :: 0 <= i < |r| && r[i].deviceId == k
    {
      var i :| 0 <= i < |entries| && entries[i].0 == k;
      assert r[i].deviceId == k;
    }
  }

  /** The `onAudioDeviceAdded` calls a newly added observer receives: one
      per stored device, ids ascending. */
  function Welcome(o: ObserverId, devices: map<string, Devices.Device>): (r: seq<Delivery<Event>>)
    ensures |r| == |devices|
    ensures forall i :: 0 <= i < |r| ==> r[i].observer == o && r[i].event.DeviceAdded?
    ensures forall i :: 0 <= i < |r| ==> r[i].event.deviceId in devices
                                         && devices[r[i].event.deviceId] == r[i].event.device
    ensures forall i, j :: 0 <= i < j < |r| ==> KeyOrder.Less(r[i].event.deviceId, r[j].event.deviceId)
  {
    DeviceReplayInMapOrder(devices);
    Replay(o, DeviceReplay(devices))
  }

  /** `VolumeMixer::addObserver` (src/VolumeMixer.cpp:326-354): register
      without pruning; with `notifyNow`, replay every device in map order. */
  function AddObserver(m: Mixer, o: ObserverId, notifyNow: bool, live: set<ObserverId>): (r: Step)
    requires o in live
    ensures r.next.devices == m.devices
    ensures Registered(m.observers, o, live) ==> r.next.observers == m.observers
    ensures !Registered(m.observers, o, live) ==> r.next.observers == m.observers + [o]
    ensures Registered(r.next.observers, o, live)
    ensures NoLiveDuplicates(m.observers, live) ==> NoLiveDuplicates(r.next.observers, live)
    ensures notifyNow ==>
      && |r.log| == |m.devices|
      && (forall i :: 0 <= i < |r.log| ==> r.log[i].observer == o && r.log[i].event.DeviceAdded?)
      && (forall i :: 0 <= i < |r.log| ==> r.log[i].event.deviceId in m.devices
                                            && m.devices[r.log[i].event.deviceId] == r.log[i].event.device)
      && (forall i, j :: 0 <= i < j < |r.log| ==> KeyOrder.Less(r.log[i].event.deviceId, r.log[j].event.deviceId))
    ensures !notifyNow ==> r.log == []
  {
    Step(m.(observers := Register(m.observers, o, live)), if notifyNow then Welcome(o, m.devices) else [])
  }

  /** `VolumeMixer::removeObserver` (src/VolumeMixer.cpp:356-374). */
  function RemoveObserver(m: Mixer, o: ObserverId, live: set<ObserverId>): (r: Mixer)
    ensures r.devices == m.devices
    ensures forall x :: x in r.observers ==> x in live && x != o
    ensures forall x :: x in live && x != o ==> multiset(r.observers)[x] == multiset(m.observers)[x]
    ensures IsSubsequence(r.observers, m.observers)
  {
    m.(observers := Unregister(m.observers, o, live))
  }

  /** `VolumeMixer::addDevice` (src/VolumeMixer.cpp:376-386): store the
      device under its id, replacing any earlier one, then tell every live
      observer about the device now stored there. */
  function AddDevice(m: Mixer, id: string, d: Devices.Device, live: set<ObserverId>): (r: Step)
    ensures id in r.next.devices && r.next.devices[id] == d
    ensures forall k :: k != id ==> (k in r.next.devices <==> k in m.devices)
    ensures forall k :: k != id && k in m.devices ==> r.next.devices[k] == m.devices[k]
    ensures r.next.observers == Keep(m.observers, live)
    ensures |r.log| == |r.next.observers|
    ensures forall i :: 0 <= i < |r.log| ==>
      r.log[i] == Delivery(r.next.observers[i], DeviceAdded(id, r.next.devices[id]))
  {
    var stored := m.(devices := m.devices[id := d]);
    var f := Notify(stored.observers, live, DeviceAdded(id, stored.devices[id]));
    Step(stored.(observers := f.survivors), f.log)
  }

  /** `VolumeMixer::removeDevice` (src/VolumeMixer.cpp:388-397): tell every
      live observer first, whether or not the id is present, then erase it. */
  function RemoveDevice(m: Mixer, id: string, live: set<ObserverId>): (r: Step)
    ensures id !in r.next.devices
    ensures forall k :: k != id ==> (k in r.next.devices <==> k in m.devices)
    ensures forall k :: k != id && k in m.devices ==> r.next.devices[k] == m.devices[k]
    ensures r.next.observers == Keep(m.observers, live)
    ensures |r.log| == |r.next.observers|
    ensures forall i :: 0 <= i < |r.log| ==> r.log[i] == Delivery(r.next.observers[i], DeviceRemoved(id))
  {
    var f := Notify(m.observers, live, DeviceRemoved(id));
    Step(Mixer(f.survivors, m.devices - {id}), f.log)
  }

  /** Removing a device just added restores the map. */
  lemma AddThenRemoveDevice(m: Mixer, id: string, d: Devices.Device, live: set<ObserverId>)
    requires id !in m.devices
    ensures RemoveDevice(AddDevice(m, id, d, live).next, id, live).next.devices == m.devices
  {
    var after := RemoveDevice(AddDevice(m, id, d, live).next, id, live).next;
    assert after.devices.Keys == m.devices.Keys;
  }
}
