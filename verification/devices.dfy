/** `vmx::AudioDevice`: the published state of one audio endpoint, its
    observer list and the map of its sessions
    (include/vmx/VolumeMixer.h:66-125, src/VolumeMixer.cpp:158-323). */
module Devices {
  import opened Observers
  import Sessions
  import KeyOrder

  /** `AudioDevice::State`. */
  datatype State = Active | Disabled | NotPresent | Unplugged | Unknown

  /** `AudioDevice::Observer`'s callbacks: one per scalar field, then the
      two session-membership events. */
  datatype Event =
    | NameChange(name: string)
    | IconPathChange(iconPath: string)
    | StateChange(state: State)
    | DefaultChange(isDefault: bool)
    | VolumeChange(volume: real)
    | MuteChange(muted: bool)
    | PeakSample(peak: real)
    | SessionAdded(sessionId: string, session: Sessions.Session)
    | SessionRemoved(sessionId: string)
  {
    /** A callback reporting one scalar field. */
    predicate IsScalar()
    {
      !SessionAdded? && !SessionRemoved?
    }
  }

  datatype Device = Device(
    name: string,
    iconPath: string,
    state: State,
    isDefault: bool,
    volume: real,
    muted: bool,
    peak: real,
    observers: seq<ObserverId>,
    sessions: map<string, Sessions.Session>)

  /** The new device and the callbacks an operation dispatched. */
  datatype Step = Step(next: Device, log: seq<Delivery<Event>>)

  /** Number of scalar fields. */
  const FieldCount := 7

  /** Position of a scalar event's field in the replay order. */
  function Slot(e: Event): (i: nat)
    requires e.IsScalar()
    ensures i < FieldCount
  {
    match e
    case NameChange(_) => 0
    case IconPathChange(_) => 1
    case StateChange(_) => 2
    case DefaultChange(_) => 3
    case VolumeChange(_) => 4
    case MuteChange(_) => 5
    case PeakSample(_) => 6
  }

  /** The current value of every scalar field, as the callback reporting
      it, in the order a new observer is told about them. */
  function Snapshot(d: Device): (r: seq<Event>)
    ensures |r| == FieldCount
    ensures forall i :: 0 <= i < FieldCount ==> r[i].IsScalar() && Slot(r[i]) == i
  {
    [NameChange(d.name), IconPathChange(d.iconPath), StateChange(d.state), DefaultChange(d.isDefault),
     VolumeChange(d.volume), MuteChange(d.muted), PeakSample(d.peak)]
  }

  /** The stored field already has the event's value. */
  predicate Holds(d: Device, e: Event)
    requires e.IsScalar()
  {
    match e
    case NameChange(n) => d.name == n
    case IconPathChange(p) => d.iconPath == p
    case StateChange(st) => d.state == st
    case DefaultChange(b) => d.isDefault == b
    case VolumeChange(v) => d.volume == v
    case MuteChange(m) => d.muted == m
    case PeakSample(p) => d.peak == p
  }

  /** Store the event's value in its field. */
  function Store(d: Device, e: Event): Device
    requires e.IsScalar()
  {
    match e
    case NameChange(n) => d.(name := n)
    case IconPathChange(p) => d.(iconPath := p)
    case StateChange(st) => d.(state := st)
    case DefaultChange(b) => d.(isDefault := b)
    case VolumeChange(v) => d.(volume := v)
    case MuteChange(m) => d.(muted := m)
    case PeakSample(p) => d.(peak := p)
  }

  lemma HoldsReadsSnapshot(d: Device, e: Event)
    requires e.IsScalar()
    ensures Holds(d, e) <==> Snapshot(d)[Slot(e)] == e
  {
  }

  lemma StoreWritesOneSlot(d: Device, e: Event)
    requires e.IsScalar()
    ensures Snapshot(Store(d, e))[Slot(e)] == e
    ensures forall i :: 0 <= i < FieldCount && i != Slot(e) ==> Snapshot(Store(d, e))[i] == Snapshot(d)[i]
    ensures Store(d, e).observers == d.observers && Store(d, e).sessions == d.sessions
  {
  }

  /** A default-constructed device (include/vmx/VolumeMixer.h:116-124). */
  function New(): (d: Device)
    ensures Snapshot(d) == [NameChange(""), IconPathChange(""), StateChange(Unknown), DefaultChange(false),
                            VolumeChange(0.0), MuteChange(false), PeakSample(0.0)]
    ensures d.observers == [] && d.sessions == map[]
  {
    Device("", "", Unknown, false, 0.0, false, 0.0, [], map[])
  }

  /** `updateName` … `updatePeakSample` (src/VolumeMixer.cpp:217-300). An
      unchanged value is a complete no-op; a new value is stored, every
      live observer gets one callback with it, and expired entries are
      erased. The session map is never touched. */
  function Update(d: Device, e: Event, live: set<ObserverId>): (r: Step)
    requires e.IsScalar()
    ensures Snapshot(d)[Slot(e)] == e ==> r.next == d && r.log == []
    ensures Snapshot(d)[Slot(e)] != e ==>
      && Snapshot(r.next)[Slot(e)] == e
      && (forall i :: 0 <= i < FieldCount && i != Slot(e) ==> Snapshot(r.next)[i] == Snapshot(d)[i])
      && r.next.sessions == d.sessions
      && r.next.observers == Keep(d.observers, live)
      && |r.log| == |r.next.observers|
      && (forall i :: 0 <= i < |r.log| ==> r.log[i] == Delivery(r.next.observers[i], e))
  {
    HoldsReadsSnapshot(d, e);
    if Holds(d, e) then Step(d, [])
    else
      var stored := Store(d, e);
      StoreWritesOneSlot(d, e);
      var f := Notify(stored.observers, live, e);
      Step(stored.(observers := f.survivors), f.log)
  }

  /** One `onAudioSessionAdded` per session, in map order. */
  function SessionReplay(sessions: map<string, Sessions.Session>): (r: seq<Event>)
    ensures |r| == |sessions|
    ensures forall i :: 0 <= i < |r| ==> r[i].SessionAdded? && r[i].sessionId in sessions && sessions[r[i].sessionId] == r[i].session
  {
    var entries := KeyOrder.Entries(sessions);
    seq(|entries|, i requires 0 <= i < |entries| => SessionAdded(entries[i].0, entries[i].1))
  }

  /** The replay visits every stored session once, in map order: ids
      strictly ascend and every key appears. */
  lemma SessionReplayInMapOrder(sessions: map<string, Sessions.Session>)
    ensures forall i, j :: 0 <= i < j < |SessionReplay(sessions)| ==>
      KeyOrder.Less(SessionReplay(sessions)[i].sessionId, SessionReplay(sessions)[j].sessionId)
    ensures forall k :: k in sessions ==> exists i :: 0 <= i < |SessionReplay(sessions)| && SessionReplay(sessions)[i].sessionId == k
  {
    var entries := KeyOrder.Entries(sessions);
    KeyOrder.EntriesAscend(sessions);
    var r := SessionReplay(sessions);
    forall i, j | 0 <= i < j < |r|
      ensures KeyOrder.Less(r[i].sessionId, r[j].sessionId)
    {
      assert r[i].sessionId == entries[i].0 && r[j].sessionId == entries[j].0;
    }
    forall k | k in sessions
      ensures exists i :: 0 <= i < |r| && r[i].sessionId == k
    {
      var i :| 0 <= i < |entries| && entries[i].0 == k;
      assert r[i].sessionId == k;
    }
  }

  /** `AudioDevice::addObserver` (src/VolumeMixer.cpp:159-195): register
      without pruning; with `notifyNow`, replay the seven scalar fields
      and then every session in map order. */
  function AddObserver(d: Device, o: ObserverId, notifyNow: bool, live: set<ObserverId>): (r: Step)
    requires o in live
    ensures Snapshot(r.next) == Snapshot(d) && r.next.sessions == d.sessions
    ensures Registered(d.observers, o, live) ==> r.next.observers == d.observers
    ensures !Registered(d.observers, o, live) ==> r.next.observers == d.observers + [o]
    ensures Registered(r.next.observers, o, live)
    ensures NoLiveDuplicates(d.observers, live) ==> NoLiveDuplicates(r.next.observers, live)
    ensures notifyNow ==>
      && |r.log| == FieldCount + |d.sessions|
      && (forall i :: 0 <= i < |r.log| ==> r.log[i].observer == o)
      && (forall i :: 0 <= i < FieldCount ==> r.log[i].event == Snapshot(d)[i])
      && r.log[FieldCount..] == Replay(o, SessionReplay(d.sessions))
    ensures !notifyNow ==> r.log == []
  {
    var next := d.(observers := Register(d.observers, o, live));
    var fields := Replay(o, Snapshot(d));
    var log := fields + Replay(o, SessionReplay(d.sessions));
    assert log[|fields|..] == Replay(o, SessionReplay(d.sessions));
    Step(next, if notifyNow then log else [])
  }

  /** `AudioDevice::removeObserver` (src/VolumeMixer.cpp:197-215). */
  function RemoveObserver(d: Device, o: ObserverId, live: set<ObserverId>): (r: Device)
    ensures Snapshot(r) == Snapshot(d) && r.sessions == d.sessions
    ensures forall x :: x in r.observers ==> x in live && x != o
    ensures forall x :: x in live && x != o ==> multiset(r.observers)[x] == multiset(d.observers)[x]
    ensures IsSubsequence(r.observers, d.observers)
  {
    d.(observers := Unregister(d.observers, o, live))
  }

  /** `AudioDevice::addSession` (src/VolumeMixer.cpp:302-312): store the
      session under its id, replacing any earlier one, then tell every live
      observer about the session now stored there. */
  function AddSession(d: Device, id: string, s: Sessions.Session, live: set<ObserverId>): (r: Step)
    ensures id in r.next.sessions && r.next.sessions[id] == s
    ensures forall k :: k != id ==> (k in r.next.sessions <==> k in d.sessions)
    ensures forall k :: k != id && k in d.sessions ==> r.next.sessions[k] == d.sessions[k]
    ensures Snapshot(r.next) == Snapshot(d)
    ensures r.next.observers == Keep(d.observers, live)
    ensures |r.log| == |r.next.observers|
    ensures forall i :: 0 <= i < |r.log| ==>
      r.log[i] == Delivery(r.next.observers[i], SessionAdded(id, r.next.sessions[id]))
  {
    var stored := d.(sessions := d.sessions[id := s]);
    var f := Notify(stored.observers, live, SessionAdded(id, stored.sessions[id]));
    Step(stored.(observers := f.survivors), f.log)
  }

  /** `AudioDevice::removeSession` (src/VolumeMixer.cpp:314-323): tell every
      live observer first, whether or not the id is present, then erase it. */
  function RemoveSession(d: Device, id: string, live: set<ObserverId>): (r: Step)
    ensures id !in r.next.sessions
    ensures forall k :: k != id ==> (k in r.next.sessions <==> k in d.sessions)
    ensures forall k :: k != id && k in d.sessions ==> r.next.sessions[k] == d.sessions[k]
    ensures Snapshot(r.next) == Snapshot(d)
    ensures r.next.observers == Keep(d.observers, live)
    ensures |r.log| == |r.next.observers|
    ensures forall i :: 0 <= i < |r.log| ==> r.log[i] == Delivery(r.next.observers[i], SessionRemoved(id))
  {
    var f := Notify(d.observers, live, SessionRemoved(id));
    var notified := d.(observers := f.survivors);
    Step(notified.(sessions := notified.sessions - {id}), f.log)
  }

  /** After an update the field holds the event's value, whether or not
      it was already there, and the session map is untouched. */
  lemma UpdateHolds(d: Device, e: Event, live: set<ObserverId>)
    requires e.IsScalar()
    ensures Holds(Update(d, e, live).next, e)
    ensures Update(d, e, live).next.sessions == d.sessions
  {
    HoldsReadsSnapshot(d, e);
    HoldsReadsSnapshot(Update(d, e, live).next, e);
  }

  /** Every callback of an update carries the event itself. */
  lemma UpdateReports(d: Device, e: Event, live: set<ObserverId>)
    requires e.IsScalar()
    ensures forall i :: 0 <= i < |Update(d, e, live).log| ==> Update(d, e, live).log[i].event == e
  {
  }

  /** Coalescing: a repeated update is silent. */
  lemma UpdateTwice(d: Device, e: Event, live: set<ObserverId>, live': set<ObserverId>)
    requires e.IsScalar()
    ensures Update(Update(d, e, live).next, e, live') == Step(Update(d, e, live).next, [])
  {
    var first := Update(d, e, live).next;
    assert Snapshot(first)[Slot(e)] == e;
  }

  /** Removing a session just added restores the map (the add/remove pair
      are inverse on the session map). */
  lemma AddThenRemoveSession(d: Device, id: string, s: Sessions.Session, live: set<ObserverId>)
    requires id !in d.sessions
    ensures RemoveSession(AddSession(d, id, s, live).next, id, live).next.sessions == d.sessions
  {
    var after := RemoveSession(AddSession(d, id, s, live).next, id, live).next;
    assert after.sessions.Keys == d.sessions.Keys;
  }
}
