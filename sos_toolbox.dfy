/** The toolbox shared by the graph builder and the snapshot comparison:
    the list-to-text conversion and the per-kind difference of two ontology
    snapshots. */
module SoSToolbox {
  import opened Wrappers
  import opened PyValue
  import opened PyDict
  import opened PyList

  // ---------------------------------------------------------------- array_to_string

  /** What `array_to_string` returns: `''` for None, the `',\n'`-join of what
      the marker loop leaves of a list (`''` if nothing), `str(v)` for int,
      float, dict and str, and any other value unchanged. */
  function ArrayText(v: Value): Value {
    match v
    case VNone => VStr("")
    case VList(items) =>
      var rest := Pruned(items, 0);
      if |rest| > 0 then VStr(JoinStr(rest)) else VStr("")
    case _ => if IsScalarLike(v) then VStr(Str(v)) else v
  }

  /** `array_to_string`, running the marker loop on the list it is given. */
  method ArrayToString(v: Value) returns (r: Value)
    ensures r == ArrayText(v)
  {
    if v == VNone {
      return VStr("");
    }
    if v.VList? {
      var rest := RemoveMarkers(v.items);
      if |rest| > 0 {
        r := VStr(JoinStr(rest));
      } else {
        r := VStr("");
      }
    } else if IsScalarLike(v) {
      r := VStr(Str(v));
    } else {
      r := v;
    }
  }

  /** For a list in which no marker follows another, the text joins exactly
      the elements that are neither None nor `'null'`, and is `''` when every
      element is one. */
  lemma ArrayTextOfList(items: seq<Value>)
    requires NoAdjacentMarkers(items)
    ensures var kept := DropMarkers(items);
            ArrayText(VList(items)) == if |kept| > 0 then VStr(JoinStr(kept)) else VStr("")
  {
    PrunedIsFilter(items);
  }

  /** Only lists, None and the scalar types are converted to text; a value of
      any other type comes back as it was. */
  lemma ArrayTextKinds(v: Value)
    ensures v == VNone ==> ArrayText(v) == VStr("")
    ensures IsScalarLike(v) ==> ArrayText(v) == VStr(Str(v))
    ensures !v.VList? && !v.VNone? && !IsScalarLike(v) ==> ArrayText(v) == v
    ensures v.VList? || v.VNone? || IsScalarLike(v) ==> ArrayText(v).VStr?
  {
  }

  // ---------------------------------------------------------------- diffDictElements

  /** One kind's entry of the difference: `new`, `new_list`, `removed`,
      `removed_list`. */
  datatype Diff = Diff(added: nat, addedList: seq<string>, removed: nat, removedList: seq<string>)

  /** `{e['id'] for e in entityDict[0].values()}`, the snapshot of one kind
      given as the list of its entity ids. */
  function IdSet(ids: seq<string>): set<string> {
    set x | x in ids
  }

  /** The ids a snapshot holds for `kind`; none when the kind is absent. */
  function KindIds(snapshot: seq<(string, seq<string>)>, kind: string): set<string> {
    match Get(snapshot, kind)
    case Some(ids) => IdSet(ids)
    case None => {}
  }

  /** A kind with ids whose counterpart the comparison looks up in the other
      snapshot, where it is missing (the lookup raises `KeyError`). */
  predicate Unpaired(from: seq<(string, seq<string>)>, to: seq<(string, seq<string>)>, kind: string) {
    KindIds(from, kind) != {} && !HasKey(to, kind)
  }

  /** `list` holds exactly the ids of `ids` that are not in `other`, each once,
      and `count` is their number. */
  ghost predicate ListsDifference(count: nat, list: seq<string>, ids: set<string>, other: set<string>) {
    count == |list| && Distinct(list) && forall x :: x in list <==> x in ids && x !in other
  }

  /** The loop `for id in ids: if id not in other: count += 1; list.append(id)`,
      over a set in whatever order it is visited. */
  method CollectMissing(ids: set<string>, other: set<string>) returns (count: nat, list: seq<string>)
    ensures ListsDifference(count, list, ids, other)
  {
    count := 0;
    list := [];
    var todo := ids;
    while todo != {}
      invariant todo <= ids
      invariant count == |list| && Distinct(list)
      invariant forall x :: x in list <==> x in ids - todo && x !in other
      decreases |todo|
    {
      var id :| id in todo;
      if id !in other {
        count := count + 1;
        list := list + [id];
      }
      todo := todo - {id};
    }
  }

  /** The `removed` half of a kind's entry is right for `kind`. */
  ghost predicate RemovedRight(d: Diff, oldDict: seq<(string, seq<string>)>, newDict: seq<(string, seq<string>)>, kind: string) {
    ListsDifference(d.removed, d.removedList, KindIds(oldDict, kind), KindIds(newDict, kind))
  }

  /** The `new` half of a kind's entry is right for `kind`. */
  ghost predicate AddedRight(d: Diff, oldDict: seq<(string, seq<string>)>, newDict: seq<(string, seq<string>)>, kind: string) {
    ListsDifference(d.added, d.addedList, KindIds(newDict, kind), KindIds(oldDict, kind))
  }

  /** After the first `n` kinds of the old snapshot: each has a fresh entry
      whose `removed` half is right and whose `new` half is empty, and every
      other kind keeps its entry of `diffDict`. */
  ghost predicate RemovedDone(out: seq<(string, Diff)>, diffDict: seq<(string, Diff)>,
                              oldDict: seq<(string, seq<string>)>, newDict: seq<(string, seq<string>)>, n: nat)
    requires n <= |oldDict|
  {
    forall kind ::
      if HasKey(oldDict[..n], kind) then
        Get(out, kind).Some? && RemovedRight(Get(out, kind).value, oldDict, newDict, kind)
        && Get(out, kind).value.added == 0 && Get(out, kind).value.addedList == []
      else Get(out, kind) == Get(diffDict, kind)
  }

  lemma RemovedStep(out: seq<(string, Diff)>, diffDict: seq<(string, Diff)>,
                    oldDict: seq<(string, seq<string>)>, newDict: seq<(string, seq<string>)>, i: nat, entry: Diff)
    requires UniqueKeys(oldDict) && i < |oldDict|
    requires RemovedDone(out, diffDict, oldDict, newDict, i)
    requires entry.added == 0 && entry.addedList == [] && RemovedRight(entry, oldDict, newDict, oldDict[i].0)
    ensures RemovedDone(Set(out, oldDict[i].0, entry), diffDict, oldDict, newDict, i + 1)
  {
    PrefixStep(oldDict, i);
    var next := Set(out, oldDict[i].0, entry);
    forall kind
      ensures if HasKey(oldDict[..i + 1], kind) then
                Get(next, kind).Some? && RemovedRight(Get(next, kind).value, oldDict, newDict, kind)
                && Get(next, kind).value.added == 0 && Get(next, kind).value.addedList == []
              else Get(next, kind) == Get(diffDict, kind)
    {
      SetGet(out, oldDict[i].0, entry, kind);
      if kind != oldDict[i].0 {
        assert Get(oldDict[..i + 1], kind) == Get(oldDict[..i], kind);
      }
    }
  }

  /** The first loop of `diffDictElements`, over the kinds of the old snapshot. */
  method RemovedPass(diffDict: seq<(string, Diff)>, oldDict: seq<(string, seq<string>)>, newDict: seq<(string, seq<string>)>)
    returns (r: Result<seq<(string, Diff)>, PyError>)
    requires UniqueKeys(diffDict) && UniqueKeys(oldDict)
    ensures r.Err? <==> exists kind :: Unpaired(oldDict, newDict, kind)
    ensures r.Err? ==> r.error.KeyError? && r.error.key.VStr? && Unpaired(oldDict, newDict, r.error.key.s)
    ensures r.Ok? ==> UniqueKeys(r.value) && RemovedDone(r.value, diffDict, oldDict, newDict, |oldDict|)
  {
    var out := diffDict;
    var i := 0;
    assert oldDict[..0] == [];
    while i < |oldDict|
      invariant 0 <= i <= |oldDict|
      invariant UniqueKeys(out)
      invariant forall j :: 0 <= j < i ==> !Unpaired(oldDict, newDict, oldDict[j].0)
      invariant RemovedDone(out, diffDict, oldDict, newDict, i)
    {
      var (kind, ids) := oldDict[i];
      GetAt(oldDict, i);
      if IdSet(ids) != {} && !HasKey(newDict, kind) {
        assert Unpaired(oldDict, newDict, kind);
        return Err(KeyError(VStr(kind)));
      }
      var count, list := CollectMissing(IdSet(ids), KindIds(newDict, kind));
      SetUnique(out, kind, Diff(0, [], count, list));
      RemovedStep(out, diffDict, oldDict, newDict, i, Diff(0, [], count, list));
      out := Set(out, kind, Diff(0, [], count, list));
      i := i + 1;
    }
    forall kind ensures !Unpaired(oldDict, newDict, kind) {
      if HasKey(oldDict, kind) {
        var j :| 0 <= j < |oldDict| && oldDict[j].0 == kind;
      }
    }
    r := Ok(out);
  }

  /** The kinds of the new snapshot the second loop has updated. */
  predicate Refreshed(newDict: seq<(string, seq<string>)>, n: nat, kind: string)
    requires n <= |newDict|
  {
    HasKey(newDict[..n], kind) && KindIds(newDict, kind) != {}
  }

  /** After the first `n` kinds of the new snapshot: each of them with ids has
      its `new` half right and its `removed` half as the first loop left it;
      every other kind keeps its entry of `base`. */
  ghost predicate AddedDone(out: seq<(string, Diff)>, base: seq<(string, Diff)>,
                            oldDict: seq<(string, seq<string>)>, newDict: seq<(string, seq<string>)>, n: nat)
    requires n <= |newDict|
  {
    forall kind ::
      if Refreshed(newDict, n, kind) then
        Get(out, kind).Some? && Get(base, kind).Some?
        && Get(out, kind).value.removed == Get(base, kind).value.removed
        && Get(out, kind).value.removedList == Get(base, kind).value.removedList
        && AddedRight(Get(out, kind).value, oldDict, newDict, kind)
      else Get(out, kind) == Get(base, kind)
  }

  lemma AddedStep(out: seq<(string, Diff)>, base: seq<(string, Diff)>,
                  oldDict: seq<(string, seq<string>)>, newDict: seq<(string, seq<string>)>, j: nat, entry: Diff)
    requires UniqueKeys(newDict) && j < |newDict|
    requires AddedDone(out, base, oldDict, newDict, j)
    requires KindIds(newDict, newDict[j].0) != {}
    requires Get(base, newDict[j].0).Some?
    requires entry.removed == Get(base, newDict[j].0).value.removed
    requires entry.removedList == Get(base, newDict[j].0).value.removedList
    requires AddedRight(entry, oldDict, newDict, newDict[j].0)
    ensures AddedDone(Set(out, newDict[j].0, entry), base, oldDict, newDict, j + 1)
  {
    PrefixStep(newDict, j);
    var next := Set(out, newDict[j].0, entry);
    forall kind
      ensures if Refreshed(newDict, j + 1, kind) then
                Get(next, kind).Some? && Get(base, kind).Some?
                && Get(next, kind).value.removed == Get(base, kind).value.removed
                && Get(next, kind).value.removedList == Get(base, kind).value.removedList
                && AddedRight(Get(next, kind).value, oldDict, newDict, kind)
              else Get(next, kind) == Get(base, kind)
    {
      SetGet(out, newDict[j].0, entry, kind);
      if kind != newDict[j].0 {
        assert Get(newDict[..j + 1], kind) == Get(newDict[..j], kind);
      }
    }
  }

  lemma AddedSkip(out: seq<(string, Diff)>, base: seq<(string, Diff)>,
                  oldDict: seq<(string, seq<string>)>, newDict: seq<(string, seq<string>)>, j: nat)
    requires UniqueKeys(newDict) && j < |newDict|
    requires AddedDone(out, base, oldDict, newDict, j)
    requires KindIds(newDict, newDict[j].0) == {}
    ensures AddedDone(out, base, oldDict, newDict, j + 1)
  {
    PrefixStep(newDict, j);
    forall kind ensures Refreshed(newDict, j + 1, kind) <==> Refreshed(newDict, j, kind) {
      if kind != newDict[j].0 {
        assert Get(newDict[..j + 1], kind) == Get(newDict[..j], kind);
      }
    }
  }

  /** One turn of the second loop: the kind at position `j` of the new snapshot. */
  method AddedKind(out: seq<(string, Diff)>, base: seq<(string, Diff)>,
                   oldDict: seq<(string, seq<string>)>, newDict: seq<(string, seq<string>)>, j: nat)
    returns (r: Result<seq<(string, Diff)>, PyError>)
    requires UniqueKeys(out) && UniqueKeys(newDict) && j < |newDict|
    requires forall kind :: HasKey(oldDict, kind) ==> Get(base, kind).Some?
    requires AddedDone(out, base, oldDict, newDict, j)
    ensures r.Err? <==> Unpaired(newDict, oldDict, newDict[j].0)
    ensures r.Err? ==> r.error == KeyError(VStr(newDict[j].0))
    ensures r.Ok? ==> UniqueKeys(r.value) && AddedDone(r.value, base, oldDict, newDict, j + 1)
  {
    var (kind, ids) := newDict[j];
    GetAt(newDict, j);
    if IdSet(ids) == {} {
      AddedSkip(out, base, oldDict, newDict, j);
      return Ok(out);
    }
    if !HasKey(oldDict, kind) {
      return Err(KeyError(VStr(kind)));
    }
    assert Get(out, kind) == Get(base, kind) && Get(base, kind).Some? by {
      PrefixLacksKey(newDict, j);
      assert !Refreshed(newDict, j, kind);
    }
    var entry := Get(out, kind).value;
    var count, list := CollectMissing(IdSet(ids), KindIds(oldDict, kind));
    var updated := Diff(count, list, entry.removed, entry.removedList);
    SetUnique(out, kind, updated);
    AddedStep(out, base, oldDict, newDict, j, updated);
    r := Ok(Set(out, kind, updated));
  }

  /** The second loop of `diffDictElements`, over the kinds of the new snapshot. */
  method AddedPass(base: seq<(string, Diff)>, oldDict: seq<(string, seq<string>)>, newDict: seq<(string, seq<string>)>)
    returns (r: Result<seq<(string, Diff)>, PyError>)
    requires UniqueKeys(base) && UniqueKeys(newDict)
    requires forall kind :: HasKey(oldDict, kind) ==> Get(base, kind).Some?
    ensures r.Err? <==> exists kind :: Unpaired(newDict, oldDict, kind)
    ensures r.Err? ==> r.error.KeyError? && r.error.key.VStr? && Unpaired(newDict, oldDict, r.error.key.s)
    ensures r.Ok? ==> UniqueKeys(r.value) && AddedDone(r.value, base, oldDict, newDict, |newDict|)
  {
    var out := base;
    var j := 0;
    assert newDict[..0] == [];
    while j < |newDict|
      invariant 0 <= j <= |newDict|
      invariant UniqueKeys(out)
      invariant forall i :: 0 <= i < j ==> !Unpaired(newDict, oldDict, newDict[i].0)
      invariant AddedDone(out, base, oldDict, newDict, j)
    {
      var step := AddedKind(out, base, oldDict, newDict, j);
      if step.Err? {
        return step;
      }
      out := step.value;
      j := j + 1;
    }
    forall kind ensures !Unpaired(newDict, oldDict, kind) {
      if HasKey(newDict, kind) {
        var i :| 0 <= i < |newDict| && newDict[i].0 == kind;
      }
    }
    r := Ok(out);
  }

  /** `diffDictElements`: for every kind of the old snapshot, a fresh entry
      listing the ids it lost and the ids the new snapshot added; entries of
      other kinds in `diffDict` are left alone.  A kind with ids on one side
      and missing on the other makes the lookup raise `KeyError`. */
  method DiffDictElements(diffDict: seq<(string, Diff)>, oldDict: seq<(string, seq<string>)>, newDict: seq<(string, seq<string>)>)
    returns (r: Result<seq<(string, Diff)>, PyError>)
    requires UniqueKeys(diffDict) && UniqueKeys(oldDict) && UniqueKeys(newDict)
    ensures r.Err? <==> exists kind :: Unpaired(oldDict, newDict, kind) || Unpaired(newDict, oldDict, kind)
    ensures r.Err? ==> (r.error.KeyError? && r.error.key.VStr?
                        && (Unpaired(oldDict, newDict, r.error.key.s) || Unpaired(newDict, oldDict, r.error.key.s)))
    ensures r.Ok? ==> UniqueKeys(r.value)
    ensures r.Ok? ==> forall kind :: HasKey(oldDict, kind) ==>
              Get(r.value, kind).Some?
              && RemovedRight(Get(r.value, kind).value, oldDict, newDict, kind)
              && AddedRight(Get(r.value, kind).value, oldDict, newDict, kind)
    ensures r.Ok? ==> forall kind :: !HasKey(oldDict, kind) ==> Get(r.value, kind) == Get(diffDict, kind)
  {
    var first := RemovedPass(diffDict, oldDict, newDict);
    if first.Err? {
      return first;
    }
    var base := first.value;
    assert oldDict[..|oldDict|] == oldDict;
    r := AddedPass(base, oldDict, newDict);
    if r.Ok? {
      assert newDict[..|newDict|] == newDict;
      forall kind | HasKey(oldDict, kind)
        ensures Get(r.value, kind).Some?
                && RemovedRight(Get(r.value, kind).value, oldDict, newDict, kind)
                && AddedRight(Get(r.value, kind).value, oldDict, newDict, kind)
      {
        if !Refreshed(newDict, |newDict|, kind) {
          assert KindIds(newDict, kind) == {};
        }
      }
      forall kind | !HasKey(oldDict, kind) ensures Get(r.value, kind) == Get(diffDict, kind) {
        assert !Unpaired(newDict, oldDict, kind);
        assert !Refreshed(newDict, |newDict|, kind);
      }
    }
  }

  /** Comparing a snapshot with itself finds nothing new and nothing removed. */
  lemma SameSnapshotNoDifference(snapshot: seq<(string, seq<string>)>, kind: string, d: Diff)
    requires RemovedRight(d, snapshot, snapshot, kind) && AddedRight(d, snapshot, snapshot, kind)
    ensures d == Diff(0, [], 0, [])
  {
    NoMemberEmpty(d.removedList);
    NoMemberEmpty(d.addedList);
  }
}
