/** The observer list every entity keeps: a vector of weak references.
    An observer is named by its identity; whether it is still alive is
    the set `live` handed to each operation, so an entry is expired
    exactly when its id is not in `live`. Each notification the source
    hands to a detached thread is recorded here as one `Delivery`, in the
    order the list is walked. */
module Observers {

  /** Identity of an observer object. */
  type ObserverId = nat

  /** One callback dispatched to one observer. */
  datatype Delivery<E> = Delivery(observer: ObserverId, event: E)

  /** The result of walking the list to notify: what is left of the list
      after expired entries are erased, and the callbacks dispatched. */
  datatype Fanout<E> = Fanout(survivors: seq<ObserverId>, log: seq<Delivery<E>>)

  /** A weak entry resolves to `o` (its `lock()` yields `o`). */
  predicate Resolves(entry: ObserverId, o: ObserverId, live: set<ObserverId>)
  {
    entry == o && o in live
  }

  /** No two entries resolve to the same living observer. */
  predicate NoLiveDuplicates(entries: seq<ObserverId>, live: set<ObserverId>)
  {
    forall i, j :: 0 <= i < j < |entries| && entries[i] == entries[j] ==> entries[i] !in live
  }

  /** `a` is `b` with some elements left out, the rest in their order. */
  predicate IsSubsequence(a: seq<ObserverId>, b: seq<ObserverId>)
  {
    if a == [] then true
    else if b == [] then false
    else if a[0] == b[0] then IsSubsequence(a[1..], b[1..])
    else IsSubsequence(a, b[1..])
  }

  /** The entries whose observer is in `keep`, in list order. */
  function Keep(entries: seq<ObserverId>, keep: set<ObserverId>): (r: seq<ObserverId>)
    ensures forall x :: x in r ==> x in keep
    ensures forall x :: x in keep ==> multiset(r)[x] == multiset(entries)[x]
    ensures IsSubsequence(r, entries)
  {
    if entries == [] then []
    else
      var rest := Keep(entries[1..], keep);
      assert entries == [entries[0]] + entries[1..];
      if entries[0] in keep then [entries[0]] + rest else rest
  }

  /** Several events handed to one observer, in order (the snapshot replay). */
  function Replay<E>(o: ObserverId, events: seq<E>): (r: seq<Delivery<E>>)
    ensures |r| == |events|
    ensures forall i :: 0 <= i < |r| ==> r[i].observer == o && r[i].event == events[i]
  {
    seq(|events|, i requires 0 <= i < |events| => Delivery(o, events[i]))
  }

  /** Some entry of the list resolves to `o`. */
  predicate Registered(entries: seq<ObserverId>, o: ObserverId, live: set<ObserverId>)
  {
    exists i :: 0 <= i < |entries| && Resolves(entries[i], o, live)
  }

  /** `addObserver`'s list step (src/VolumeMixer.cpp:44-53): append a weak
      reference to `o` unless an entry already resolves to it. Expired
      entries are left in place. */
  function Register(entries: seq<ObserverId>, o: ObserverId, live: set<ObserverId>): (r: seq<ObserverId>)
    requires o in live
    ensures Registered(entries, o, live) ==> r == entries
    ensures !Registered(entries, o, live) ==> r == entries + [o]
    ensures entries <= r && |r| <= |entries| + 1
    ensures Registered(r, o, live)
    ensures NoLiveDuplicates(entries, live) ==> NoLiveDuplicates(r, live)
  {
    if Registered(entries, o, live) then entries
    else
      assert Resolves((entries + [o])[|entries|], o, live);
      entries + [o]
  }

  /** `removeObserver`'s list step (src/VolumeMixer.cpp:72-83): erase
      every entry that is expired or resolves to `o`. */
  function Unregister(entries: seq<ObserverId>, o: ObserverId, live: set<ObserverId>): (r: seq<ObserverId>)
    ensures forall x :: x in r ==> x in live && x != o
    ensures forall x :: x in live && x != o ==> multiset(r)[x] == multiset(entries)[x]
    ensures IsSubsequence(r, entries)
  {
    Keep(entries, live - {o})
  }

  /** `FOR_EACH_OBSERVER_CALL_METHOD` (src/VolumeMixer.cpp:10-26): walk the
      list; a live entry gets one call of `event` and stays, an expired
      entry is erased. */
  function Notify<E>(entries: seq<ObserverId>, live: set<ObserverId>, event: E): (r: Fanout<E>)
    ensures r.survivors == Keep(entries, live)
    ensures |r.log| == |r.survivors|
    ensures forall i :: 0 <= i < |r.log| ==> r.log[i] == Delivery(r.survivors[i], event)
  {
    if entries == [] then Fanout([], [])
    else
      var rest := Notify(entries[1..], live, event);
      if entries[0] in live then
        Fanout([entries[0]] + rest.survivors, [Delivery(entries[0], event)] + rest.log)
      else
        rest
  }

  /** Walking the list twice in a row erases nothing the second time. */
  lemma {:induction false} KeepIdempotent(entries: seq<ObserverId>, keep: set<ObserverId>)
    ensures Keep(Keep(entries, keep), keep) == Keep(entries, keep)
  {
    if entries != [] {
      KeepIdempotent(entries[1..], keep);
    }
  }

  /** Keep is the only order-preserving selection of exactly the entries in
      `keep`: any other list with the three properties of its contract is
      equal to it. */
  lemma {:induction false} KeepUnique(entries: seq<ObserverId>, keep: set<ObserverId>, r: seq<ObserverId>)
    requires forall x :: x in r ==> x in keep
    requires forall x :: x in keep ==> multiset(r)[x] == multiset(entries)[x]
    requires IsSubsequence(r, entries)
    ensures r == Keep(entries, keep)
  {
    if entries == [] {
      SubsequenceOfEmpty(r);
    } else {
      var e := entries[0];
      var tail := entries[1..];
      assert entries == [e] + tail;
      if r != [] && r[0] == e {
        assert r == [r[0]] + r[1..];
        forall x | x in keep
          ensures multiset(r[1..])[x] == multiset(tail)[x]
        {
        }
        KeepUnique(tail, keep, r[1..]);
      } else {
        SubsequenceSkip(r, entries);
        if e in keep {
          assert multiset(entries)[e] >= 1;
          assert e in r by {
            assert multiset(r)[e] >= 1;
          }
          SubsequenceHeadNotFirst(r, entries, e);
          assert false;
        }
        forall x | x in keep
          ensures multiset(r)[x] == multiset(tail)[x]
        {
        }
        KeepUnique(tail, keep, r);
      }
    }
  }

  lemma {:induction false} SubsequenceOfEmpty(r: seq<ObserverId>)
    requires IsSubsequence(r, [])
    ensures r == []
  {
  }

  /** A subsequence that does not start with `b`'s head skips that head. */
  lemma SubsequenceSkip(a: seq<ObserverId>, b: seq<ObserverId>)
    requires b != [] && IsSubsequence(a, b)
    requires a == [] || a[0] != b[0]
    ensures IsSubsequence(a, b[1..])
  {
  }

  /** Every element of a subsequence occurs in the sequence. */
  lemma {:induction false} SubsequenceMembers(a: seq<ObserverId>, b: seq<ObserverId>)
    requires IsSubsequence(a, b)
    ensures forall x :: x in a ==> x in b
  {
    if a != [] && b != [] {
      if a[0] == b[0] {
        SubsequenceMembers(a[1..], b[1..]);
        assert a == [a[0]] + a[1..];
      } else {
        SubsequenceMembers(a, b[1..]);
      }
    }
  }

  /** If `a` is a subsequence of `b`'s tail, it holds at most as many copies
      of `b`'s head as the tail does, so it cannot hold all copies in `b`. */
  lemma SubsequenceHeadNotFirst(a: seq<ObserverId>, b: seq<ObserverId>, e: ObserverId)
    requires b != [] && b[0] == e
    requires IsSubsequence(a, b[1..])
    ensures multiset(a)[e] < multiset(b)[e]
  {
    SubsequenceCount(a, b[1..], e);
    assert b == [b[0]] + b[1..];
  }

  lemma {:induction false} SubsequenceCount(a: seq<ObserverId>, b: seq<ObserverId>, x: ObserverId)
    requires IsSubsequence(a, b)
    ensures multiset(a)[x] <= multiset(b)[x]
  {
    if a == [] {
    } else if b == [] {
    } else if a[0] == b[0] {
      SubsequenceCount(a[1..], b[1..], x);
      assert a == [a[0]] + a[1..];
      assert b == [b[0]] + b[1..];
    } else {
      SubsequenceCount(a, b[1..], x);
      assert b == [b[0]] + b[1..];
    }
  }

  /** Once `o` is unregistered, no later walk of the list notifies it, even
      if it is still alive (src/VolumeMixer.cpp:66-84). */
  lemma UnregisteredHearsNothing<E>(entries: seq<ObserverId>, o: ObserverId, live: set<ObserverId>, live': set<ObserverId>, event: E)
    ensures forall d :: d in Notify(Unregister(entries, o, live), live', event).log ==> d.observer != o
  {
    var rest := Unregister(entries, o, live);
    var f := Notify(rest, live', event);
    forall d | d in f.log
      ensures d.observer != o
    {
      var i :| 0 <= i < |f.log| && f.log[i] == d;
      assert f.survivors[i] in f.survivors;
      SubsequenceMembers(f.survivors, rest);
    }
  }
}
