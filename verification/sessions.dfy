/** `vmx::AudioSession`: the published state of one audio session and its
    observer list (include/vmx/VolumeMixer.h:14-64, src/VolumeMixer.cpp:33-156).
    Each `update*` entry point is modelled by one `Update` whose argument
    is the callback it would fire: the event names the field and carries
    the new value. */
module Sessions {
  import opened Observers

  /** `AudioSession::State`. */
  datatype State = Active | Inactive | Expired | Unknown

  /** `AudioSession::Observer`'s callbacks; one per scalar field. */
  datatype Event =
    | NameChange(name: string)
    | IconPathChange(iconPath: string)
    | StateChange(state: State)
    | VolumeChange(volume: real)
    | MuteChange(muted: bool)
    | PeakSample(peak: real)

  datatype Session = Session(
    name: string,
    iconPath: string,
    state: State,
    volume: real,
    muted: bool,
    peak: real,
    observers: seq<ObserverId>)

  /** The new session and the callbacks an operation dispatched. */
  datatype Step = Step(next: Session, log: seq<Delivery<Event>>)

  /** Number of scalar fields. */
  const FieldCount := 6

  /** Position of an event's field in the replay order of `addObserver`. */
  function Slot(e: Event): (i: nat)
    ensures i < FieldCount
  {
    match e
    case NameChange(_) => 0
    case IconPathChange(_) => 1
    case StateChange(_) => 2
    case VolumeChange(_) => 3
    case MuteChange(_) => 4
    case PeakSample(_) => 5
  }

  /** The current value of every scalar field, as the callback reporting
      it, in the order a new observer is told about them. */
  function Snapshot(s: Session): (r: seq<Event>)
    ensures |r| == FieldCount
    ensures forall i :: 0 <= i < FieldCount ==> Slot(r[i]) == i
  {
    [NameChange(s.name), IconPathChange(s.iconPath), StateChange(s.state),
     VolumeChange(s.volume), MuteChange(s.muted), PeakSample(s.peak)]
  }

  /** The stored field already has the event's value (`m_x == x`). */
  predicate Holds(s: Session, e: Event)
  {
    match e
    case NameChange(n) => s.name == n
    case IconPathChange(p) => s.iconPath == p
    case StateChange(st) => s.state == st
    case VolumeChange(v) => s.volume == v
    case MuteChange(m) => s.muted == m
    case PeakSample(p) => s.peak == p
  }

  /** Store the event's value in its field (`m_x = x`). */
  function Store(s: Session, e: Event): Session
  {
    match e
    case NameChange(n) => s.(name := n)
    case IconPathChange(p) => s.(iconPath := p)
    case StateChange(st) => s.(state := st)
    case VolumeChange(v) => s.(volume := v)
    case MuteChange(m) => s.(muted := m)
    case PeakSample(p) => s.(peak := p)
  }

  /** `Holds` compares the event with the field's snapshot entry. */
  lemma HoldsReadsSnapshot(s: Session, e: Event)
    ensures Holds(s, e) <==> Snapshot(s)[Slot(e)] == e
  {
  }

  /** `Store` writes the event's slot and no other. */
  lemma StoreWritesOneSlot(s: Session, e: Event)
    ensures Snapshot(Store(s, e))[Slot(e)] == e
    ensures forall i :: 0 <= i < FieldCount && i != Slot(e) ==> Snapshot(Store(s, e))[i] == Snapshot(s)[i]
    ensures Store(s, e).observers == s.observers
  {
  }

  /** A default-constructed session (include/vmx/VolumeMixer.h:57-63). */
  function New(): (s: Session)
    ensures Snapshot(s) == [NameChange(""), IconPathChange(""), StateChange(Unknown),
                            VolumeChange(0.0), MuteChange(false), PeakSample(0.0)]
    ensures s.observers == []
  {
    Session("", "", Unknown, 0.0, false, 0.0, [])
  }

  /** `updateName` … `updatePeakSample` (src/VolumeMixer.cpp:86-156). An
      unchanged value is a complete no-op; a new value is stored, every
      live observer gets one callback with it, and expired entries are
      erased. */
  function Update(s: Session, e: Event, live: set<ObserverId>): (r: Step)
    ensures Snapshot(s)[Slot(e)] == e ==> r.next == s && r.log == []
    ensures Snapshot(s)[Slot(e)] != e ==>
      && Snapshot(r.next)[Slot(e)] == e
      && (forall i :: 0 <= i < FieldCount && i != Slot(e) ==> Snapshot(r.next)[i] == Snapshot(s)[i])
      && r.next.observers == Keep(s.observers, live)
      && |r.log| == |r.next.observers|
      && (forall i :: 0 <= i < |r.log| ==> r.log[i] == Delivery(r.next.observers[i], e))
  {
    HoldsReadsSnapshot(s, e);
    if Holds(s, e) then Step(s, [])
    else
      var stored := Store(s, e);
      StoreWritesOneSlot(s, e);
      var f := Notify(stored.observers, live, e);
      Step(stored.(observers := f.survivors), f.log)
  }

  /** `AudioSession::addObserver` (src/VolumeMixer.cpp:34-64). */
  function AddObserver(s: Session, o: ObserverId, notifyNow: bool, live: set<ObserverId>): (r: Step)
    requires o in live
    ensures Snapshot(r.next) == Snapshot(s)
    ensures Registered(s.observers, o, live) ==> r.next.observers == s.observers
    ensures !Registered(s.observers, o, live) ==> r.next.observers == s.observers + [o]
    ensures Registered(r.next.observers, o, live)
    ensures NoLiveDuplicates(s.observers, live) ==> NoLiveDuplicates(r.next.observers, live)
    ensures notifyNow ==>
      && |r.log| == FieldCount
      && forall i :: 0 <= i < FieldCount ==> r.log[i].observer == o && Slot(r.log[i].event) == i && Holds(s, r.log[i].event)
    ensures !notifyNow ==> r.log == []
  {
    var next := s.(observers := Register(s.observers, o, live));
    Step(next, if notifyNow then Replay(o, Snapshot(s)) else [])
  }

  /** `AudioSession::removeObserver` (src/VolumeMixer.cpp:66-84). */
  function RemoveObserver(s: Session, o: ObserverId, live: set<ObserverId>): (r: Session)
    ensures Snapshot(r) == Snapshot(s)
    ensures forall x :: x in r.observers ==> x in live && x != o
    ensures forall x :: x in live && x != o ==> multiset(r.observers)[x] == multiset(s.observers)[x]
    ensures IsSubsequence(r.observers, s.observers)
  {
    s.(observers := Unregister(s.observers, o, live))
  }

  /** Every snapshot event holds of its session. */
  lemma SnapshotHolds(s: Session)
    ensures forall i :: 0 <= i < FieldCount ==> Holds(s, Snapshot(s)[i])
  {
  }

  /** Coalescing: repeating an update fires exactly one set of callbacks;
      the second call changes nothing and dispatches nothing. */
  lemma UpdateTwice(s: Session, e: Event, live: set<ObserverId>, live': set<ObserverId>)
    ensures Update(Update(s, e, live).next, e, live') == Step(Update(s, e, live).next, [])
  {
    var first := Update(s, e, live).next;
    assert Snapshot(first)[Slot(e)] == e;
  }

  /** After `removeObserver(o)`, no later update notifies `o`. */
  lemma RemovedObserverNotNotified(s: Session, o: ObserverId, live: set<ObserverId>, e: Event, live': set<ObserverId>)
    ensures forall d :: d in Update(RemoveObserver(s, o, live), e, live').log ==> d.observer != o
  {
    var s' := RemoveObserver(s, o, live);
    var r := Update(s', e, live');
    forall d | d in r.log
      ensures d.observer != o
    {
      var i :| 0 <= i < |r.log| && r.log[i] == d;
      assert r.next.observers[i] in r.next.observers;
      SubsequenceMembers(r.next.observers, s'.observers);
    }
  }
}
