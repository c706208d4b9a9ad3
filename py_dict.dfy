/** Python's insertion-ordered `dict`, as a sequence of (key, value) pairs
    with distinct keys.  Writing an existing key keeps its position; writing
    a new key appends it. */
module PyDict {
  import opened Wrappers

  predicate UniqueKeys<K(==,!new), V>(d: seq<(K, V)>) {
    forall i, j :: 0 <= i < j < |d| ==> d[i].0 != d[j].0
  }

  type Dict<K(==,!new), V> = d: seq<(K, V)> | UniqueKeys(d) witness []

  function Keys<K(==,!new), V>(d: seq<(K, V)>): (ks: seq<K>)
    ensures |ks| == |d| && forall i :: 0 <= i < |d| ==> ks[i] == d[i].0
  {
    seq(|d|, i requires 0 <= i < |d| => d[i].0)
  }

  /** `d.values()`, in insertion order. */
  function Values<K(==,!new), V>(d: seq<(K, V)>): (vs: seq<V>)
    ensures |vs| == |d| && forall i :: 0 <= i < |d| ==> vs[i] == d[i].1
  {
    seq(|d|, i requires 0 <= i < |d| => d[i].1)
  }

  predicate HasKey<K(==,!new), V>(d: seq<(K, V)>, k: K) {
    exists i :: 0 <= i < |d| && d[i].0 == k
  }

  function KeySet<K(==,!new), V>(d: seq<(K, V)>): (s: set<K>)
    ensures forall k :: k in s <==> HasKey(d, k)
  {
    set i | 0 <= i < |d| :: d[i].0
  }

  /** `d.get(k)`: the value stored under `k`, or None. */
  function Get<K(==,!new), V>(d: seq<(K, V)>, k: K): (r: Option<V>)
    ensures r.None? <==> !HasKey(d, k)
    ensures r.Some? ==> exists i :: 0 <= i < |d| && d[i] == (k, r.value)
  {
    if |d| == 0 then None
    else if d[0].0 == k then Some(d[0].1)
    else
      var r := Get(d[1..], k);
      assert forall i :: 0 <= i < |d| - 1 ==> d[1..][i] == d[i + 1];
      assert d[0].0 != k ==> (HasKey(d, k) <==> HasKey(d[1..], k));
      r
  }

  /** With distinct keys, the value at position `i` is the value of its key. */
  lemma GetAt<K(!new), V>(d: seq<(K, V)>, i: nat)
    requires UniqueKeys(d) && i < |d|
    ensures Get(d, d[i].0) == Some(d[i].1)
  {
    if i > 0 && d[0].0 != d[i].0 {
      GetAt(d[1..], i - 1);
    }
  }

  lemma KeySetCons<K(!new), V>(x: (K, V), rest: seq<(K, V)>)
    ensures KeySet([x] + rest) == {x.0} + KeySet(rest)
  {
    var r := [x] + rest;
    forall y | y in KeySet(r) ensures y in {x.0} + KeySet(rest) {
      var i :| 0 <= i < |r| && r[i].0 == y;
      if i > 0 { assert rest[i - 1] == r[i]; }
    }
    forall y | y in KeySet(rest) ensures y in KeySet(r) {
      var i :| 0 <= i < |rest| && rest[i].0 == y;
      assert r[i + 1] == rest[i];
    }
    assert r[0] == x;
    assert HasKey(r, x.0);
  }

  lemma KeySetSingle<K(!new), V>(x: (K, V))
    ensures KeySet([x]) == {x.0}
  {
    assert [x][0] == x;
  }

  /** `d[k] = v`. */
  function Set<K(==,!new), V>(d: seq<(K, V)>, k: K, v: V): (r: seq<(K, V)>)
    ensures |r| == if HasKey(d, k) then |d| else |d| + 1
    ensures HasKey(d, k) ==> forall i :: 0 <= i < |d| ==> r[i].0 == d[i].0
    ensures !HasKey(d, k) ==> r == d + [(k, v)]
    ensures KeySet(r) == KeySet(d) + {k}
  {
    if |d| == 0 then
      KeySetCons((k, v), []);
      [(k, v)]
    else if d[0].0 == k then
      ConsShape(d, k);
      KeySetCons((k, v), d[1..]);
      KeySetCons(d[0], d[1..]);
      [(k, v)] + d[1..]
    else
      var rest := Set(d[1..], k, v);
      ConsShape(d, k);
      KeySetCons(d[0], d[1..]);
      KeySetCons(d[0], rest);
      [d[0]] + rest
  }

  lemma ConsShape<K(!new), V>(d: seq<(K, V)>, k: K)
    requires |d| > 0
    ensures d == [d[0]] + d[1..]
    ensures forall i :: 0 <= i < |d| - 1 ==> d[1..][i] == d[i + 1]
    ensures d[0].0 != k ==> (HasKey(d, k) <==> HasKey(d[1..], k))
  {
    if d[0].0 != k && HasKey(d, k) {
      var i :| 0 <= i < |d| && d[i].0 == k;
      assert d[1..][i - 1] == d[i];
    }
  }

  /** Overwriting a key leaves the set of keys as it was. */
  lemma SetExistingKeys<K(!new), V>(d: seq<(K, V)>, k: K, v: V)
    requires HasKey(d, k)
    ensures KeySet(Set(d, k, v)) == KeySet(d)
  {
    assert k in KeySet(d);
  }

  /** Writing keeps the keys distinct. */
  lemma SetUnique<K(!new), V>(d: seq<(K, V)>, k: K, v: V)
    requires UniqueKeys(d)
    ensures UniqueKeys(Set(d, k, v))
  {
    var r := Set(d, k, v);
    if !HasKey(d, k) {
      forall i, j | 0 <= i < j < |r| ensures r[i].0 != r[j].0 {
        if j == |d| { assert r[i] == d[i]; }
      }
    }
  }

  /** Writing stores `v` under `k` and leaves every other key's value as it was. */
  lemma {:induction false} SetGet<K(!new), V>(d: seq<(K, V)>, k: K, v: V, k': K)
    ensures Get(Set(d, k, v), k') == if k' == k then Some(v) else Get(d, k')
  {
    if |d| > 0 {
      var r := Set(d, k, v);
      if d[0].0 == k {
        assert r[1..] == d[1..];
      } else {
        SetGet(d[1..], k, v, k');
        assert r == [d[0]] + Set(d[1..], k, v);
        assert r[1..] == Set(d[1..], k, v);
      }
    }
  }

  /** Writing the same key twice keeps only the second write. */
  lemma {:induction false} SetSet<K(!new), V>(d: seq<(K, V)>, k: K, v: V, w: V)
    ensures Set(Set(d, k, v), k, w) == Set(d, k, w)
  {
    if |d| > 0 && d[0].0 != k {
      SetSet(d[1..], k, v, w);
      var once := Set(d, k, v);
      assert once == [d[0]] + Set(d[1..], k, v);
      assert once[1..] == Set(d[1..], k, v);
    }
  }

  /** `d.setdefault(k, v)`: the stored value, after storing `v` if `k` was absent. */
  function SetDefault<K(==,!new), V>(d: seq<(K, V)>, k: K, v: V): (r: (seq<(K, V)>, V))
    ensures HasKey(d, k) ==> r == (d, Get(d, k).value)
    ensures !HasKey(d, k) ==> r == (d + [(k, v)], v)
  {
    match Get(d, k)
    case Some(stored) => (d, stored)
    case None => (d + [(k, v)], v)
  }

  lemma AppendUnique<K(!new), V>(d: seq<(K, V)>, k: K, v: V)
    requires UniqueKeys(d) && !HasKey(d, k)
    ensures UniqueKeys(d + [(k, v)])
  {
  }

  /** With distinct keys there are as many keys as entries. */
  lemma {:induction false} KeySetSize<K(!new), V>(d: seq<(K, V)>)
    requires UniqueKeys(d)
    ensures |KeySet(d)| == |d|
  {
    if |d| > 0 {
      KeySetSize(d[1..]);
      KeySetCons(d[0], d[1..]);
      assert d == [d[0]] + d[1..];
      forall i | 0 <= i < |d[1..]| ensures d[1..][i].0 != d[0].0 {
        assert d[1..][i] == d[i + 1];
      }
    }
  }

  /** Reading a dict built one entry at a time: the entry at `i` is the only
      one of its key, so it decides the lookup of that key and no other. */
  lemma PrefixStep<K(!new), V>(d: seq<(K, V)>, i: nat)
    requires UniqueKeys(d) && i < |d|
    ensures Get(d[..i + 1], d[i].0) == Some(d[i].1)
    ensures forall k :: k != d[i].0 ==> Get(d[..i + 1], k) == Get(d[..i], k)
  {
    forall j | 0 <= j < i ensures d[..i][j].0 != d[i].0 {
      assert d[..i][j] == d[j];
    }
    assert d[..i + 1] == d[..i] + [(d[i].0, d[i].1)];
    GetAppendNew(d[..i], d[i].0, d[i].1, d[i].0);
    forall k | k != d[i].0 ensures Get(d[..i + 1], k) == Get(d[..i], k) {
      GetAppendNew(d[..i], d[i].0, d[i].1, k);
    }
  }

  /** With distinct keys, a key does not occur before its own position. */
  lemma PrefixLacksKey<K(!new), V>(d: seq<(K, V)>, i: nat)
    requires UniqueKeys(d) && i < |d|
    ensures !HasKey(d[..i], d[i].0)
  {
    forall j | 0 <= j < i ensures d[..i][j].0 != d[i].0 {
      assert d[..i][j] == d[j];
    }
  }

  /** Entries added after a key's first entry do not change its lookup. */
  lemma {:induction false} PrefixKeepsGet<K(!new), V>(p: seq<(K, V)>, d: seq<(K, V)>, k: K)
    requires p <= d && HasKey(p, k)
    ensures Get(d, k) == Get(p, k)
    decreases |p|
  {
    if p[0].0 != k {
      var i :| 0 <= i < |p| && p[i].0 == k;
      assert p[1..][i - 1] == p[i];
      assert p[1..] <= d[1..];
      PrefixKeepsGet(p[1..], d[1..], k);
    }
  }

  /** Looking up in a dict after appending a key it did not hold. */
  lemma {:induction false} GetAppendNew<K(!new), V>(d: seq<(K, V)>, k: K, v: V, k': K)
    requires !HasKey(d, k)
    ensures Get(d + [(k, v)], k') == if k' == k then Some(v) else Get(d, k')
  {
    if |d| > 0 {
      assert (d + [(k, v)])[1..] == d[1..] + [(k, v)];
      forall i | 0 <= i < |d[1..]| ensures d[1..][i].0 != k {
        assert d[1..][i] == d[i + 1];
      }
      GetAppendNew(d[1..], k, v, k');
    }
  }

  lemma KeySetAppend<K(!new), V>(d: seq<(K, V)>, x: (K, V))
    ensures KeySet(d + [x]) == KeySet(d) + {x.0}
  {
    var r := d + [x];
    forall y | y in KeySet(r) ensures y in KeySet(d) + {x.0} {
      var i :| 0 <= i < |r| && r[i].0 == y;
      if i < |d| { assert r[i] == d[i]; }
    }
    forall y | y in KeySet(d) ensures y in KeySet(r) {
      var i :| 0 <= i < |d| && d[i].0 == y;
      assert r[i] == d[i];
    }
    assert r[|d|] == x;
  }

  /** Every entry after a write is the written one or an entry from before. */
  lemma {:induction false} SetEntries<K(!new), V>(d: seq<(K, V)>, k: K, v: V)
    ensures forall e :: e in Set(d, k, v) ==> e == (k, v) || e in d
  {
    if |d| > 0 && d[0].0 != k {
      SetEntries(d[1..], k, v);
      assert Set(d, k, v) == [d[0]] + Set(d[1..], k, v);
      forall e | e in d[1..] ensures e in d {
      }
    }
  }
}
