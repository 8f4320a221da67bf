/** The iteration order of a `std::map<std::string, …>`: keys ascend under
    `std::string`'s `operator<`, a lexicographic comparison character by
    character in which a proper prefix sorts first. */
module KeyOrder {

  /** `a < b` for strings, as `std::string` compares them. */
  predicate Less(a: string, b: string)
  {
    if |a| == 0 then |b| > 0
    else if |b| == 0 then false
    else if a[0] != b[0] then a[0] < b[0]
    else Less(a[1..], b[1..])
  }

  lemma {:induction false} LessIrreflexive(a: string)
    ensures !Less(a, a)
  {
    if |a| > 0 {
      LessIrreflexive(a[1..]);
    }
  }

  lemma {:induction false} LessAsymmetric(a: string, b: string)
    requires Less(a, b)
    ensures !Less(b, a)
  {
    if |a| > 0 && |b| > 0 && a[0] == b[0] {
      LessAsymmetric(a[1..], b[1..]);
    }
  }

  lemma {:induction false} LessTransitive(a: string, b: string, c: string)
    requires Less(a, b) && Less(b, c)
    ensures Less(a, c)
  {
    if |a| > 0 && |b| > 0 && |c| > 0 && a[0] == b[0] && b[0] == c[0] {
      LessTransitive(a[1..], b[1..], c[1..]);
    }
  }

  lemma {:induction false} LessTotal(a: string, b: string)
    requires a != b
    ensures Less(a, b) || Less(b, a)
  {
    if |a| > 0 && |b| > 0 && a[0] == b[0] {
      assert a == [a[0]] + a[1..] && b == [b[0]] + b[1..];
      LessTotal(a[1..], b[1..]);
    }
  }

  /** `k` is the first key of `keys` in map order. */
  predicate IsFirst(k: string, keys: set<string>)
  {
    k in keys && forall k' :: k' in keys && k' != k ==> Less(k, k')
  }

  lemma {:induction false} FirstExists(keys: set<string>)
    requires keys != {}
    ensures exists k :: IsFirst(k, keys)
    decreases |keys|
  {
    var x :| x in keys;
    if keys == {x} {
      assert IsFirst(x, keys);
    } else {
      var rest := keys - {x};
      FirstExists(rest);
      var m :| IsFirst(m, rest);
      if Less(m, x) {
        assert IsFirst(m, keys);
      } else {
        LessTotal(m, x);
        forall k' | k' in keys && k' != x
          ensures Less(x, k')
        {
          if k' != m {
            LessTransitive(x, m, k');
          }
        }
        assert IsFirst(x, keys);
      }
    }
  }

  lemma FirstUnique(keys: set<string>)
    ensures forall a, b :: IsFirst(a, keys) && IsFirst(b, keys) ==> a == b
  {
    forall a, b | IsFirst(a, keys) && IsFirst(b, keys)
      ensures a == b
    {
      if a != b {
        LessAsymmetric(a, b);
      }
    }
  }

  /** Strictly ascending in map order, hence free of repeats. */
  predicate Ascending(s: seq<string>)
  {
    forall i, j :: 0 <= i < j < |s| ==> Less(s[i], s[j])
  }

  /** Putting the first key in front of the others in order keeps them in
      order. */
  lemma PrependFirst(k: string, keys: set<string>, rest: seq<string>)
    requires IsFirst(k, keys)
    requires forall x :: x in rest <==> x in keys - {k}
    requires Ascending(rest)
    ensures Ascending([k] + rest)
  {
    var s := [k] + rest;
    forall i, j | 0 <= i < j < |s|
      ensures Less(s[i], s[j])
    {
      if i > 0 {
        assert s[i] == rest[i - 1] && s[j] == rest[j - 1];
      } else {
        assert s[j] == rest[j - 1] && s[j] in keys - {k};
      }
    }
  }

  /** The keys of a `std::map` in the order a range-for visits them. */
  function Ordered(keys: set<string>): (r: seq<string>)
    ensures |r| == |keys|
    ensures forall k :: k in r <==> k in keys
    ensures Ascending(r)
    decreases |keys|
  {
    if keys == {} then []
    else
      FirstExists(keys);
      FirstUnique(keys);
      var k :| IsFirst(k, keys);
      var rest := Ordered(keys - {k});
      PrependFirst(k, keys, rest);
      [k] + rest
  }

  /** The entries of a `std::map` in the order a range-for visits them:
      every key once, with its value, keys strictly ascending. */
  function Entries<V>(m: map<string, V>): (r: seq<(string, V)>)
    ensures |r| == |m|
    ensures forall i :: 0 <= i < |r| ==> r[i].0 in m && m[r[i].0] == r[i].1
    ensures forall k :: k in m ==> exists i :: 0 <= i < |r| && r[i].0 == k
  {
    var keys := Ordered(m.Keys);
    var r := seq(|keys|, i requires 0 <= i < |keys| => (keys[i], m[keys[i]]));
    forall k | k in m
      ensures exists i :: 0 <= i < |r| && r[i].0 == k
    {
      var i :| 0 <= i < |keys| && keys[i] == k;
      assert r[i].0 == k;
    }
    r
  }

  /** A range-for over a `std::map` visits the keys in strictly ascending
      order. */
  lemma EntriesAscend<V>(m: map<string, V>)
    ensures forall i, j :: 0 <= i < j < |Entries(m)| ==> Less(Entries(m)[i].0, Entries(m)[j].0)
  {
  }

  /** An ascending sequence does not repeat its first key. */
  lemma AscendingHeadFresh(s: seq<string>)
    requires |s| > 0 && Ascending(s)
    ensures s[0] !in s[1..]
    ensures Ascending(s[1..])
  {
    if s[0] in s[1..] {
      var j :| 0 <= j < |s[1..]| && s[1..][j] == s[0];
      assert Less(s[0], s[j + 1]);
      LessIrreflexive(s[0]);
    }
  }

  /** The outputs of `f` for each key, concatenated in the order of `keys`:
      a range-for over a map that produces `f(k)` at each key `k`. */
  function Concat<T>(keys: seq<string>, f: string -> seq<T>): seq<T>
    decreases |keys|
  {
    if keys == [] then [] else f(keys[0]) + Concat(keys[1..], f)
  }

  /** The elements of `s` whose owner is `k`, in order. */
  function Select<T>(s: seq<T>, owner: T -> string, k: string): seq<T>
    decreases |s|
  {
    if s == [] then []
    else (if owner(s[0]) == k then [s[0]] else []) + Select(s[1..], owner, k)
  }

  /** Every element of `s` is owned by `k`. */
  predicate Owned<T>(s: seq<T>, owner: T -> string, k: string)
  {
    forall i :: 0 <= i < |s| ==> owner(s[i]) == k
  }

  lemma {:induction false} SelectAppend<T>(a: seq<T>, b: seq<T>, owner: T -> string, k: string)
    ensures Select(a + b, owner, k) == Select(a, owner, k) + Select(b, owner, k)
    decreases |a|
  {
    if a == [] {
      assert a + b == b;
    } else {
      var head := if owner(a[0]) == k then [a[0]] else [];
      assert (a + b)[0] == a[0];
      assert (a + b)[1..] == a[1..] + b;
      SelectAppend(a[1..], b, owner, k);
      assert Select(a + b, owner, k) == head + (Select(a[1..], owner, k) + Select(b, owner, k));
      assert Select(a, owner, k) == head + Select(a[1..], owner, k);
    }
  }

  /** Selecting from a sequence with a single owner keeps all or nothing. */
  lemma {:induction false} SelectOwned<T>(s: seq<T>, owner: T -> string, k0: string, k: string)
    requires Owned(s, owner, k0)
    ensures Select(s, owner, k) == if k == k0 then s else []
    decreases |s|
  {
    if s != [] {
      SelectOwned(s[1..], owner, k0, k);
      assert s == [s[0]] + s[1..];
    }
  }

  /** When each key produces output it owns and no key repeats, selecting
      one key's elements from the concatenation gives back exactly that
      key's output. */
  lemma {:induction false} ConcatSelect<T>(keys: seq<string>, f: string -> seq<T>, owner: T -> string, k: string)
    requires Ascending(keys)
    requires forall j :: 0 <= j < |keys| ==> Owned(f(keys[j]), owner, keys[j])
    ensures Select(Concat(keys, f), owner, k) == if k in keys then f(k) else []
    decreases |keys|
  {
    if keys != [] {
      AscendingHeadFresh(keys);
      ConcatSelect(keys[1..], f, owner, k);
      SelectAppend(f(keys[0]), Concat(keys[1..], f), owner, k);
      SelectOwned(f(keys[0]), owner, keys[0], k);
    }
  }

  /** Everything in the concatenation is owned by one of the keys. */
  lemma {:induction false} ConcatOwners<T>(keys: seq<string>, f: string -> seq<T>, owner: T -> string)
    requires forall j :: 0 <= j < |keys| ==> Owned(f(keys[j]), owner, keys[j])
    ensures forall i :: 0 <= i < |Concat(keys, f)| ==> owner(Concat(keys, f)[i]) in keys
    decreases |keys|
  {
    if keys != [] {
      ConcatOwners(keys[1..], f, owner);
      var c := Concat(keys, f);
      forall i | 0 <= i < |c|
        ensures owner(c[i]) in keys
      {
        if i >= |f(keys[0])| {
          assert c[i] == Concat(keys[1..], f)[i - |f(keys[0])|];
        }
      }
    }
  }

  /** The elements of `s` are grouped by owner, owners ascending. */
  predicate InKeyOrder<T>(s: seq<T>, owner: T -> string)
  {
    forall i, j :: 0 <= i < j < |s| ==> owner(s[i]) == owner(s[j]) || Less(owner(s[i]), owner(s[j]))
  }

  /** The concatenation keeps the order of the keys: an element of a later
      key never comes before one of an earlier key. */
  lemma {:induction false} ConcatInKeyOrder<T>(keys: seq<string>, f: string -> seq<T>, owner: T -> string)
    requires Ascending(keys)
    requires forall j :: 0 <= j < |keys| ==> Owned(f(keys[j]), owner, keys[j])
    ensures InKeyOrder(Concat(keys, f), owner)
    decreases |keys|
  {
    if keys != [] {
      var head := f(keys[0]);
      var rest := Concat(keys[1..], f);
      AscendingHeadFresh(keys);
      ConcatInKeyOrder(keys[1..], f, owner);
      ConcatOwners(keys[1..], f, owner);
      var c := head + rest;
      forall i, j | 0 <= i < j < |c|
        ensures owner(c[i]) == owner(c[j]) || Less(owner(c[i]), owner(c[j]))
      {
        if j < |head| {
          assert owner(c[i]) == keys[0] == owner(c[j]);
        } else if i < |head| {
          assert owner(c[i]) == keys[0];
          assert c[j] == rest[j - |head|];
          assert owner(rest[j - |head|]) in keys[1..];
          var m :| 0 <= m < |keys[1..]| && keys[1..][m] == owner(c[j]);
          assert Less(keys[0], keys[m + 1]);
        } else {
          var i', j' := i - |head|, j - |head|;
          assert c[i] == rest[i'] && c[j] == rest[j'];
          assert owner(rest[i']) == owner(rest[j']) || Less(owner(rest[i']), owner(rest[j']));
        }
      }
      assert Concat(keys, f) == c;
    }
  }

  /** Every element of `s` is kept by the selection of its own owner. */
  lemma {:induction false} SelectKeeps<T>(s: seq<T>, owner: T -> string, i: nat)
    requires i < |s|
    ensures s[i] in Select(s, owner, owner(s[i]))
    decreases |s|
  {
    if i > 0 {
      SelectKeeps(s[1..], owner, i - 1);
    }
  }

  /** The per-key sequences `f(k)` of every key in `keys`, concatenated in
      map order: what a loop over a `std::map` emits when each entry emits
      its own share. Each key's share can be read back with `Select`. */
  function Gather<T>(keys: set<string>, f: string -> seq<T>, owner: T -> string): (r: seq<T>)
    requires forall k :: Owned(f(k), owner, k)
    ensures forall k :: Select(r, owner, k) == if k in keys then f(k) else []
    ensures forall i :: 0 <= i < |r| ==> owner(r[i]) in keys
    ensures InKeyOrder(r, owner)
    ensures forall i :: 0 <= i < |r| ==> r[i] in f(owner(r[i]))
  {
    var ordered := Ordered(keys);
    forall k
      ensures Select(Concat(ordered, f), owner, k) == if k in keys then f(k) else []
    {
      ConcatSelect(ordered, f, owner, k);
    }
    ConcatOwners(ordered, f, owner);
    ConcatInKeyOrder(ordered, f, owner);
    var r := Concat(ordered, f);
    forall i | 0 <= i < |r|
      ensures r[i] in f(owner(r[i]))
    {
      SelectKeeps(r, owner, i);
    }
    r
  }
}
