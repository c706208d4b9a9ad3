/** List helpers: membership without repetition (`if x not in l:
    l.append(x)`), and the list idiom shared by `toLiteral`, `getLiteral` and both
    `array_to_string` helpers:

        for v in values:
            if v is None or v == 'null':
                values.remove(v)

    `list.remove` deletes the FIRST element equal to `v`, and the iterator
    still advances by one, so the element right after a removed one is never
    examined.  `Pruned` is that behaviour exactly; `DropMarkers` is the
    filter the loop is evidently meant to compute; `PrunedIsFilter` says when
    the two agree. */
module PyList {
  import opened PyValue
  import PyStr

  /** No element occurs twice (for objects: no object occurs twice). */
  predicate Distinct<T(==)>(s: seq<T>) {
    forall i, j :: 0 <= i < j < |s| ==> s[i] != s[j]
  }

  /** Appending `x` when it is not yet a member (`if x not in l: l.append(x)`). */
  function AppendNew<T(==)>(s: seq<T>, x: T): (r: seq<T>)
    ensures Distinct(s) ==> Distinct(r)
    ensures x in r && forall y :: y in s ==> y in r
    ensures x in s ==> r == s
  {
    if x in s then s else s + [x]
  }

  /** A list with no member is empty. */
  lemma NoMemberEmpty<T>(s: seq<T>)
    ensures (forall x :: x !in s) ==> s == []
  {
    if |s| > 0 {
      assert s[0] in s;
    }
  }

  /** The two values the loop deletes. */
  predicate IsMarker(v: Value) {
    v == VNone || v == VStr("null")
  }

  /** `values.remove(x)` when `x` occurs: the first equal element is deleted. */
  function RemoveFirst(values: seq<Value>, x: Value): (r: seq<Value>)
    ensures x in values ==> |r| == |values| - 1
    ensures x !in values ==> r == values
  {
    if |values| == 0 then []
    else if values[0] == x then values[1..]
    else [values[0]] + RemoveFirst(values[1..], x)
  }

  /** The list after the loop has run from iterator position `i` on. */
  function Pruned(values: seq<Value>, i: nat): seq<Value>
    decreases |values| - i
  {
    if i >= |values| then values
    else if IsMarker(values[i]) then Pruned(RemoveFirst(values, values[i]), i + 1)
    else Pruned(values, i + 1)
  }

  /** The loop, as the source runs it on the caller's list. */
  method RemoveMarkers(values: seq<Value>) returns (remaining: seq<Value>)
    ensures remaining == Pruned(values, 0)
  {
    remaining := values;
    var i := 0;
    while i < |remaining|
      invariant Pruned(remaining, i) == Pruned(values, 0)
      decreases |remaining| - i
    {
      var v := remaining[i];
      if IsMarker(v) {
        remaining := RemoveFirst(remaining, v);
      }
      i := i + 1;
    }
  }

  /** The elements that are not markers, in order. */
  function DropMarkers(values: seq<Value>): (r: seq<Value>)
    ensures forall k :: 0 <= k < |r| ==> !IsMarker(r[k])
  {
    if |values| == 0 then []
    else (if IsMarker(values[0]) then [] else [values[0]]) + DropMarkers(values[1..])
  }

  lemma {:induction false} DropMarkersAppend(a: seq<Value>, b: seq<Value>)
    ensures DropMarkers(a + b) == DropMarkers(a) + DropMarkers(b)
    decreases |a|
  {
    if |a| > 0 {
      DropMarkersAppend(a[1..], b);
      var head := if IsMarker(a[0]) then [] else [a[0]];
      assert (a + b)[0] == a[0];
      assert (a + b)[1..] == a[1..] + b;
      assert DropMarkers(a + b) == head + DropMarkers(a[1..] + b);
      assert DropMarkers(a) == head + DropMarkers(a[1..]);
    } else {
      assert a + b == b;
    }
  }

  lemma DropMarkersClean(a: seq<Value>)
    requires forall k :: 0 <= k < |a| ==> !IsMarker(a[k])
    ensures DropMarkers(a) == a
  {
    if |a| > 0 { DropMarkersClean(a[1..]); }
  }

  /** No two markers stand next to each other. */
  predicate NoAdjacentMarkers(values: seq<Value>) {
    forall k :: 0 <= k < |values| - 1 ==> !(IsMarker(values[k]) && IsMarker(values[k + 1]))
  }

  lemma RemoveFirstAfterCleanPrefix(values: seq<Value>, i: nat)
    requires i < |values| && IsMarker(values[i])
    requires forall k :: 0 <= k < i ==> !IsMarker(values[k])
    ensures RemoveFirst(values, values[i]) == values[..i] + values[i + 1..]
  {
    SplitAround(values, i);
    RemoveFirstAfterClean(values[..i], values[i], values[i + 1..]);
  }

  lemma SplitAt<T>(s: seq<T>, i: nat)
    requires i <= |s|
    ensures s == s[..i] + s[i..]
    ensures forall k :: 0 <= k < i ==> s[..i][k] == s[k]
  {
  }

  lemma SplitAround<T>(s: seq<T>, i: nat)
    requires i < |s|
    ensures s == s[..i] + [s[i]] + s[i + 1..]
    ensures forall k :: 0 <= k < i ==> s[..i][k] == s[k]
  {
    assert s[i..] == [s[i]] + s[i + 1..];
    assert s == s[..i] + s[i..];
  }

  lemma {:induction false} RemoveFirstAfterClean(a: seq<Value>, m: Value, b: seq<Value>)
    requires IsMarker(m) && forall k :: 0 <= k < |a| ==> !IsMarker(a[k])
    ensures RemoveFirst(a + [m] + b, m) == a + b
    decreases |a|
  {
    var s := a + [m] + b;
    if |a| == 0 {
      assert s == [m] + b;
    } else {
      assert s[0] == a[0] && a[0] != m;
      assert s[1..] == a[1..] + [m] + b;
      calc {
        RemoveFirst(s, m);
        [a[0]] + RemoveFirst(a[1..] + [m] + b, m);
        { RemoveFirstAfterClean(a[1..], m, b); }
        [a[0]] + (a[1..] + b);
        { assert a == [a[0]] + a[1..]; }
        a + b;
      }
    }
  }

  lemma NoAdjacentSuffix(values: seq<Value>, j: nat)
    requires j <= |values| && NoAdjacentMarkers(values)
    ensures NoAdjacentMarkers(values[j..])
  {
    var t := values[j..];
    forall k | 0 <= k < |t| - 1 ensures !(IsMarker(t[k]) && IsMarker(t[k + 1])) {
      assert t[k] == values[j + k] && t[k + 1] == values[j + k + 1];
    }
  }

  /** The filter of a list with a marker-free prefix. */
  lemma DropMarkersAfterCleanPrefix(values: seq<Value>, i: nat)
    requires i <= |values|
    requires forall k :: 0 <= k < i ==> !IsMarker(values[k])
    ensures DropMarkers(values) == values[..i] + DropMarkers(values[i..])
  {
    SplitAt(values, i);
    DropMarkersClean(values[..i]);
    DropMarkersAppend(values[..i], values[i..]);
  }

  /** From a state whose examined prefix holds no marker and whose unexamined
      rest has no two adjacent markers, the loop computes the filter. */
  lemma {:induction false} PrunedFromClean(values: seq<Value>, i: nat)
    requires i <= |values|
    requires forall k :: 0 <= k < i ==> !IsMarker(values[k])
    requires NoAdjacentMarkers(values[i..])
    ensures Pruned(values, i) == DropMarkers(values)
    decreases |values| - i
  {
    if i == |values| {
      DropMarkersAfterCleanPrefix(values, i);
      assert values[i..] == [];
    } else if !IsMarker(values[i]) {
      NoAdjacentSuffix(values[i..], 1);
      assert values[i..][1..] == values[i + 1..];
      PrunedFromClean(values, i + 1);
    } else {
      PrunedStep(values, i);
    }
  }

  /** The step that removes the marker at position `i`. */
  lemma {:induction false} PrunedStep(values: seq<Value>, i: nat)
    requires i < |values| && IsMarker(values[i])
    requires forall k :: 0 <= k < i ==> !IsMarker(values[k])
    requires NoAdjacentMarkers(values[i..])
    ensures Pruned(values, i) == DropMarkers(values)
    decreases |values| - i, 0
  {
    RemoveFirstAfterCleanPrefix(values, i);
    var next := values[..i] + values[i + 1..];
    var rest := values[i..];
    RemovedShape(values, i);
    assert Pruned(values, i) == Pruned(next, i + 1);
    DropMarkersAfterCleanPrefix(values, i);
    DropMarkersAppend([values[i]], values[i + 1..]);
    assert DropMarkers(rest) == DropMarkers(values[i + 1..]);
    if i + 1 < |values| {
      assert rest[0] == values[i] && rest[1] == values[i + 1];
      assert !IsMarker(values[i + 1]);
      NoAdjacentSuffix(rest, 2);
      assert forall k :: 0 <= k < i + 1 ==> !IsMarker(next[k]);
      PrunedFromClean(next, i + 1);
      DropMarkersAfterCleanPrefix(next, i);
    }
  }

  /** The list with the element at `i` deleted, against the original. */
  lemma RemovedShape<T>(s: seq<T>, i: nat)
    requires i < |s|
    ensures var next := s[..i] + s[i + 1..];
            && s[i..] == [s[i]] + s[i + 1..]
            && (forall k :: 0 <= k < i ==> next[k] == s[k])
            && (i + 1 == |s| ==> next == s[..i] && s[i + 1..] == [])
            && (i + 1 < |s| ==> next[i] == s[i + 1] && next[i + 1..] == s[i..][2..] && next[i..] == s[i + 1..])
  {
    var next := s[..i] + s[i + 1..];
    assert s[i..] == [s[i]] + s[i + 1..];
    if i + 1 < |s| {
      assert next[i + 1..] == s[i..][2..];
      assert next[i..] == s[i + 1..];
    }
  }

  /** When no marker directly follows another, the loop removes every marker. */
  lemma PrunedIsFilter(values: seq<Value>)
    requires NoAdjacentMarkers(values)
    ensures Pruned(values, 0) == DropMarkers(values)
  {
    assert values[0..] == values;
    PrunedFromClean(values, 0);
  }

  /** `',\n'.join([str(x) for x in values])`. */
  function JoinStr(values: seq<Value>): string {
    PyStr.Join(",\n", seq(|values|, k requires 0 <= k < |values| => Str(values[k])))
  }
}
