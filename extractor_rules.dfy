/** The decisions `SoSDecentralizedCodeDataExtractor` takes on what it found,
    stated as functions: which of the loaded and the parsed declaration
    blocks a discipline keeps, which ontology keys are invalid, the ids of
    usages and couplings, how a glossary drops its duplicate rows, and what
    `generate_full_extraction_logs` writes for the parameters it holds. */
module ExtractorRules {
  import opened Wrappers
  import opened PyValue
  import opened PyDict
  import PyStr
  import PyList
  import opened ExtractionLog

  // ------------------------------------------------------------ ids

  /** `param.split('.')[-1]`: a declared name without its namespace part. */
  function ParamName(param: string): string {
    PyStr.LastSegment(param, ".")
  }

  /** `f"{discipline.id}_{io}_{param}"`. */
  function UsageIdOf(disciplineId: string, io: string, param: string): string {
    disciplineId + "_" + io + "_" + param
  }

  /** One discipline and side never give two declared names the same usage id. */
  lemma UsageIdInjective(disciplineId: string, io: string, a: string, b: string)
    requires UsageIdOf(disciplineId, io, a) == UsageIdOf(disciplineId, io, b)
    ensures a == b
  {
    var prefix := disciplineId + "_" + io + "_";
    assert UsageIdOf(disciplineId, io, a) == prefix + a;
    assert UsageIdOf(disciplineId, io, b) == prefix + b;
    assert a == (prefix + a)[|prefix|..];
    assert b == (prefix + b)[|prefix|..];
  }

  /** A `DESC_IN`/`DESC_OUT` dict: declared names (usually strings, sometimes
      tuples) to descriptor dicts. */
  type Descriptors = seq<(Value, Dict<string, Value>)>

  // ------------------------------------------------------------ loaded and parsed attributes

  /** What `get_sos_discipline_internal_variables` gathers for a discipline:
      the `DESC_IN` and `DESC_OUT` dicts, `maturity` and `_ontology_data`.
      It starts from `{}`, `{}`, `""` and `{}` and fills in what loading the
      class gave. */
  datatype DisciplineAttributes = DisciplineAttributes(
    descIn: Descriptors, descOut: Descriptors, maturity: Value, ontologyData: Value)

  /** What reading the discipline's source gave; a declaration block that
      could not be read is None. */
  datatype ParsedAttributes = ParsedAttributes(
    descIn: Option<Descriptors>, descOut: Option<Descriptors>, maturity: Value, ontologyData: Value)

  /** The attributes a discipline starts from before loading. */
  const Unloaded := DisciplineAttributes([], [], VStr(""), VDict([]))

  /** A parsed declaration block replaces the loaded one when it is there,
      not empty, and declares more names. */
  predicate Replaces(loaded: Descriptors, parsed: Option<Descriptors>) {
    parsed.Some? && parsed.value != [] && |parsed.value| > |loaded|
  }

  /** The declaration block kept: one of the two, never fewer names than
      either, and the loaded one whenever the parsed one is not larger. */
  function MergedBlock(loaded: Descriptors, parsed: Option<Descriptors>): (r: Descriptors)
    ensures r == loaded || (parsed.Some? && r == parsed.value)
    ensures |r| >= |loaded| && (parsed.Some? ==> |r| >= |parsed.value|)
    ensures parsed.None? || |parsed.value| <= |loaded| ==> r == loaded
  {
    if Replaces(loaded, parsed) then parsed.value else loaded
  }

  /** `maturity` and `_ontology_data`: a loaded value still blank is taken
      from parsing (a blank parsed value leaves it blank either way). */
  function Filled(loaded: Value, parsed: Value, blank: Value): (r: Value)
    ensures loaded == blank ==> r == parsed
    ensures loaded != blank ==> r == loaded
  {
    if loaded == blank && parsed != blank then parsed else loaded
  }

  /** The attributes after the parsed ones are merged in. */
  function Merged(loaded: DisciplineAttributes, parsed: ParsedAttributes): DisciplineAttributes {
    DisciplineAttributes(
      MergedBlock(loaded.descIn, parsed.descIn),
      MergedBlock(loaded.descOut, parsed.descOut),
      Filled(loaded.maturity, parsed.maturity, VStr("")),
      Filled(loaded.ontologyData, parsed.ontologyData, VDict([])))
  }

  /** The `errors`/`loadingDiscipline` message a replacement logs. */
  function ReplacementMessage(block: string, where: string): Value {
    VStr("Parsed " + block + " used because it contains more info than loaded " + block + " for  " + where)
  }

  /** The messages logged by the merge, in order: one per replaced block. */
  function ReplacementWrites(loaded: DisciplineAttributes, parsed: ParsedAttributes, where: string): seq<LogWrite> {
    (if Replaces(loaded.descIn, parsed.descIn)
     then [LogWrite("errors", VStr("loadingDiscipline"), ReplacementMessage("DESC_IN", where))] else [])
    + (if Replaces(loaded.descOut, parsed.descOut)
       then [LogWrite("errors", VStr("loadingDiscipline"), ReplacementMessage("DESC_OUT", where))] else [])
  }

  /** A replacement is logged exactly when the block kept is not the loaded
      one, and nothing else is logged. */
  lemma ReplacementLogged(loaded: DisciplineAttributes, parsed: ParsedAttributes, where: string)
    ensures var w := ReplacementWrites(loaded, parsed, where);
      var m := Merged(loaded, parsed);
      (LogWrite("errors", VStr("loadingDiscipline"), ReplacementMessage("DESC_IN", where)) in w <==> m.descIn != loaded.descIn)
      && (LogWrite("errors", VStr("loadingDiscipline"), ReplacementMessage("DESC_OUT", where)) in w <==> m.descOut != loaded.descOut)
      && |w| <= 2
  {
    var inMessage := ReplacementMessage("DESC_IN", where);
    var outMessage := ReplacementMessage("DESC_OUT", where);
    assert inMessage.s[12] == 'I' && outMessage.s[12] == 'O';
  }

  /** A discipline that could not be loaded keeps whatever parsing gave. */
  lemma UnloadedTakesParsed(parsed: ParsedAttributes)
    ensures var m := Merged(Unloaded, parsed);
      (parsed.descIn.Some? ==> m.descIn == parsed.descIn.value)
      && (parsed.descOut.Some? ==> m.descOut == parsed.descOut.value)
      && m.maturity == parsed.maturity && m.ontologyData == parsed.ontologyData
  {
  }

  // ------------------------------------------------------------ ontology keys

  /** The keys `_ontology_data` may hold for a discipline. */
  const DisciplineOntologyKeys: seq<string> :=
    ["label", "type", "source", "validated", "validated_by", "last_modification_date",
     "category", "definition", "icon", "version"]

  /** The keys `_ontology_data` may hold for a process. */
  const ProcessOntologyKeys: seq<string> := ["label", "description", "category", "version"]

  /** `ontology_data_keys[entity]`. */
  function OntologyDataKeys(entity: string): (r: Option<seq<string>>)
    ensures r.Some? <==> entity == "sos_discipline" || entity == "process"
  {
    if entity == "sos_discipline" then Some(DisciplineOntologyKeys)
    else if entity == "process" then Some(ProcessOntologyKeys)
    else None
  }

  /** `k in valid` for a key of any type: only a string can equal one of them. */
  predicate ValidKey(k: Value, valid: seq<string>) {
    k.VStr? && k.s in valid
  }

  /** The keys that are not valid, in order. */
  function InvalidKeys(keys: seq<Value>, valid: seq<string>): (r: seq<Value>)
    ensures forall k :: k in r <==> k in keys && !ValidKey(k, valid)
    ensures |r| <= |keys|
  {
    if |keys| == 0 then []
    else
      var init := InvalidKeys(keys[..|keys| - 1], valid);
      var k := keys[|keys| - 1];
      assert keys == keys[..|keys| - 1] + [k];
      if ValidKey(k, valid) then init else init + [k]
  }

  /** `f"{entity} - {id}: {k} is not a valid ontology key"`. */
  function InvalidKeyMessage(entity: string, id: string, k: Value): Value {
    VStr(entity + " - " + id + ": " + Str(k) + " is not a valid ontology key")
  }

  /** `check_ontology_keys`: the `errors`/`ontologyKeys` writes, or what it
      raises before writing anything.  `.keys()` fails on a non-dict, and the
      lookup of `ontology_data_keys[entity]` is done for the first key, so
      an unknown entity fails only when the dict is not empty. */
  function OntologyKeyWrites(data: Value, entity: string, id: string): (r: Result<seq<LogWrite>, PyError>)
    ensures data.VDict? && data.entries == [] ==> r == Ok([])
    ensures data.VDict? && OntologyDataKeys(entity).Some? ==> r.Ok?
    ensures r.Ok? ==> forall w :: w in r.value ==> w.category == "errors" && w.sub == VStr("ontologyKeys")
  {
    if !data.VDict? then Err(AttributeError("'" + TypeName(data) + "' object has no attribute 'keys'"))
    else if |data.entries| == 0 then Ok([])
    else
      match OntologyDataKeys(entity)
      case None => Err(KeyError(VStr(entity)))
      case Some(valid) =>
        var bad := InvalidKeys(Keys(data.entries), valid);
        Ok(seq(|bad|, i requires 0 <= i < |bad| =>
          LogWrite("errors", VStr("ontologyKeys"), InvalidKeyMessage(entity, id, bad[i]))))
  }

  /** Two texts between the same prefix and suffix are equal. */
  lemma Cancelled(prefix: string, a: string, b: string, suffix: string)
    requires prefix + a + suffix == prefix + b + suffix
    ensures a == b
  {
    var m := prefix + a + suffix;
    assert |a| == |b|;
    forall i | 0 <= i < |a|
      ensures a[i] == b[i]
    {
      assert a[i] == m[|prefix| + i] == b[i];
    }
  }

  /** A key of a discipline's `_ontology_data` is reported exactly when some
      key with the same text is not one of the ten valid keys: the message
      carries the key's text, so keys whose texts coincide (`1` and `'1'`)
      give the same message. */
  lemma OntologyKeyReported(data: seq<(Value, Value)>, id: string, k: Value)
    requires UniqueKeys(data)
    ensures var r := OntologyKeyWrites(VDict(data), "sos_discipline", id);
      r.Ok? && (LogWrite("errors", VStr("ontologyKeys"), InvalidKeyMessage("sos_discipline", id, k)) in r.value
                <==> exists k' :: HasKey(data, k') && !ValidKey(k', DisciplineOntologyKeys) && Str(k') == Str(k))
  {
    if exists k' :: HasKey(data, k') && !ValidKey(k', DisciplineOntologyKeys) && Str(k') == Str(k) {
      var k' :| HasKey(data, k') && !ValidKey(k', DisciplineOntologyKeys) && Str(k') == Str(k);
      InvalidKeyReported(data, id, k');
      assert InvalidKeyMessage("sos_discipline", id, k') == InvalidKeyMessage("sos_discipline", id, k);
    }
    ReportedKeyInvalid(data, id, k);
  }

  /** An invalid key of a discipline's `_ontology_data` is reported. */
  lemma InvalidKeyReported(data: seq<(Value, Value)>, id: string, k: Value)
    requires UniqueKeys(data) && HasKey(data, k) && !ValidKey(k, DisciplineOntologyKeys)
    ensures var r := OntologyKeyWrites(VDict(data), "sos_discipline", id);
      r.Ok? && LogWrite("errors", VStr("ontologyKeys"), InvalidKeyMessage("sos_discipline", id, k)) in r.value
  {
    var i :| 0 <= i < |data| && data[i].0 == k;
    assert Keys(data)[i] == k;
    var bad := InvalidKeys(Keys(data), DisciplineOntologyKeys);
    assert k in bad;
    var j :| 0 <= j < |bad| && bad[j] == k;
    var r := OntologyKeyWrites(VDict(data), "sos_discipline", id);
    assert r.value[j] == LogWrite("errors", VStr("ontologyKeys"), InvalidKeyMessage("sos_discipline", id, k));
  }

  /** A reported message names the text of an invalid key of the data. */
  lemma ReportedKeyInvalid(data: seq<(Value, Value)>, id: string, k: Value)
    requires UniqueKeys(data)
    ensures var r := OntologyKeyWrites(VDict(data), "sos_discipline", id);
      r.Ok? && (LogWrite("errors", VStr("ontologyKeys"), InvalidKeyMessage("sos_discipline", id, k)) in r.value ==>
                exists k' :: HasKey(data, k') && !ValidKey(k', DisciplineOntologyKeys) && Str(k') == Str(k))
  {
    var r := OntologyKeyWrites(VDict(data), "sos_discipline", id);
    var bad := InvalidKeys(Keys(data), DisciplineOntologyKeys);
    var message := LogWrite("errors", VStr("ontologyKeys"), InvalidKeyMessage("sos_discipline", id, k));
    if message in r.value {
      var j :| 0 <= j < |r.value| && r.value[j] == message;
      Cancelled("sos_discipline" + " - " + id + ": ", Str(bad[j]), Str(k), " is not a valid ontology key");
      assert bad[j] in bad;
      var i :| 0 <= i < |Keys(data)| && Keys(data)[i] == bad[j];
      assert HasKey(data, bad[j]);
    }
  }

  // ------------------------------------------------------------ couplings

  /** One tuple of the couplings list: the module of the discipline each
      side's class is defined in, and the coupled variables' full names. */
  datatype CouplingTuple = CouplingTuple(fromModule: string, toModule: string, variables: seq<string>)

  /** `f"from_{disc_from.id}_to_{disc_to.id}_param_{param_name}"`. */
  function CouplingIdOf(fromId: string, toId: string, name: string): string {
    "from_" + fromId + "_to_" + toId + "_param_" + name
  }

  /** The ids of the couplings one tuple gives once both of its disciplines
      are known. */
  function TupleCouplingIds(t: CouplingTuple): set<string> {
    set v | v in t.variables :: CouplingIdOf(t.fromModule, t.toModule, ParamName(v))
  }

  /** One more variable adds its coupling id. */
  lemma TupleCouplingIdsSnoc(fromModule: string, toModule: string, variables: seq<string>, v: string)
    ensures TupleCouplingIds(CouplingTuple(fromModule, toModule, variables + [v]))
      == TupleCouplingIds(CouplingTuple(fromModule, toModule, variables)) + {CouplingIdOf(fromModule, toModule, ParamName(v))}
  {
    assert forall x :: x in variables + [v] <==> x in variables || x == v;
  }

  /** The ids of every coupling `generate_couplings` registers, given the ids
      of the known disciplines: a tuple counts only when both are known. */
  function CouplingIds(list: seq<CouplingTuple>, known: set<string>): set<string> {
    if |list| == 0 then {}
    else
      var t := list[|list| - 1];
      CouplingIds(list[..|list| - 1], known)
      + (if t.fromModule in known && t.toModule in known then TupleCouplingIds(t) else {})
  }

  /** A coupling id comes from a variable of a tuple whose two disciplines are
      both known, and every such variable gives one. */
  lemma {:induction false} CouplingIdsIff(list: seq<CouplingTuple>, known: set<string>, id: string)
    ensures id in CouplingIds(list, known) <==>
      exists i, v :: 0 <= i < |list| && list[i].fromModule in known && list[i].toModule in known
        && v in list[i].variables && id == CouplingIdOf(list[i].fromModule, list[i].toModule, ParamName(v))
  {
    if |list| > 0 {
      var init := list[..|list| - 1];
      CouplingIdsIff(init, known, id);
      assert forall i :: 0 <= i < |init| ==> init[i] == list[i];
    }
  }

  /** A coupling finds the output usage `generate_parameters` registered on
      its source discipline exactly when that usage was declared under the
      coupled variable's bare name (a namespaced declaration is not found). */
  lemma CouplingFindsUsage(disciplineId: string, io: string, declared: string, variable: string)
    ensures UsageIdOf(disciplineId, io, declared) == UsageIdOf(disciplineId, io, ParamName(variable))
      <==> declared == ParamName(variable)
  {
    if UsageIdOf(disciplineId, io, declared) == UsageIdOf(disciplineId, io, ParamName(variable)) {
      UsageIdInjective(disciplineId, io, declared, ParamName(variable));
    }
  }

  // ------------------------------------------------------------ parameters glossary

  /** A glossary row: its `id` and the other columns. */
  type GlossaryRow = (string, Dict<string, Value>)

  /** `df.loc[df.duplicated(subset=['id'], keep='first'), 'id']`: the ids of
      the rows whose id occurs on an earlier row, in order. */
  function DuplicatedIds(rows: seq<GlossaryRow>): seq<string> {
    if |rows| == 0 then []
    else
      var init := rows[..|rows| - 1];
      var id := rows[|rows| - 1].0;
      DuplicatedIds(init) + (if HasKey(init, id) then [id] else [])
  }

  /** `drop_duplicates(subset=['id'], keep='first')`: the rows whose id no
      earlier row has. */
  function FirstRows(rows: seq<GlossaryRow>): seq<GlossaryRow> {
    if |rows| == 0 then []
    else
      var init := rows[..|rows| - 1];
      var row := rows[|rows| - 1];
      FirstRows(init) + (if HasKey(init, row.0) then [] else [row])
  }

  /** After the drop, the glossary is a dict: each id once, with the row that
      came first; every row is either kept or reported as a duplicate; and
      reporting nothing means the ids were distinct already. */
  lemma FirstRowsFacts(rows: seq<GlossaryRow>)
    ensures UniqueKeys(FirstRows(rows))
    ensures forall id :: HasKey(FirstRows(rows), id) <==> HasKey(rows, id)
    ensures forall id :: Get(FirstRows(rows), id) == Get(rows, id)
    ensures |FirstRows(rows)| + |DuplicatedIds(rows)| == |rows|
    ensures forall id :: id in DuplicatedIds(rows) ==> HasKey(rows, id)
    ensures DuplicatedIds(rows) == [] <==> UniqueKeys(rows)
    ensures UniqueKeys(rows) ==> FirstRows(rows) == rows
  {
    FirstRowsKeys(rows);
    forall id ensures Get(FirstRows(rows), id) == Get(rows, id) {
      FirstRowsGet(rows, id);
    }
    FirstRowsCount(rows);
    DuplicatedIdsFacts(rows);
  }

  lemma {:induction false} FirstRowsKeys(rows: seq<GlossaryRow>)
    ensures UniqueKeys(FirstRows(rows))
    ensures KeySet(FirstRows(rows)) == KeySet(rows)
  {
    if |rows| > 0 {
      var init := rows[..|rows| - 1];
      var row := rows[|rows| - 1];
      FirstRowsKeys(init);
      assert rows == init + [row];
      KeySetAppend(init, row);
      if HasKey(init, row.0) {
        assert FirstRows(rows) == FirstRows(init);
      } else {
        var kept := FirstRows(init);
        assert FirstRows(rows) == kept + [row];
        assert row.0 !in KeySet(kept);
        KeySetAppend(kept, row);
        AppendUnique(kept, row.0, row.1);
      }
    }
  }

  lemma {:induction false} FirstRowsGet(rows: seq<GlossaryRow>, id: string)
    ensures Get(FirstRows(rows), id) == Get(rows, id)
  {
    if |rows| > 0 {
      var init := rows[..|rows| - 1];
      var row := rows[|rows| - 1];
      var kept := FirstRows(init);
      FirstRowsGet(init, id);
      FirstRowsKeys(init);
      assert rows == init + [row];
      if HasKey(init, row.0) {
        assert FirstRows(rows) == kept;
        if HasKey(init, id) {
          PrefixKeepsGet(init, rows, id);
        } else {
          KeySetAppend(init, row);
        }
      } else {
        assert FirstRows(rows) == kept + [row];
        assert row.0 !in KeySet(kept);
        GetAppendNew(init, row.0, row.1, id);
        GetAppendNew(kept, row.0, row.1, id);
      }
    }
  }

  lemma {:induction false} FirstRowsCount(rows: seq<GlossaryRow>)
    ensures |FirstRows(rows)| + |DuplicatedIds(rows)| == |rows|
  {
    if |rows| > 0 {
      FirstRowsCount(rows[..|rows| - 1]);
    }
  }

  lemma {:induction false} DuplicatedIdsFacts(rows: seq<GlossaryRow>)
    ensures forall id :: id in DuplicatedIds(rows) ==> HasKey(rows, id)
    ensures DuplicatedIds(rows) == [] <==> UniqueKeys(rows)
    ensures UniqueKeys(rows) ==> FirstRows(rows) == rows
  {
    if |rows| > 0 {
      var init := rows[..|rows| - 1];
      var row := rows[|rows| - 1];
      DuplicatedIdsFacts(init);
      assert rows == init + [row];
      KeySetAppend(init, row);
      assert forall i :: 0 <= i < |init| ==> init[i] == rows[i];
      if HasKey(init, row.0) {
        var i :| 0 <= i < |init| && init[i].0 == row.0;
        assert rows[i].0 == rows[|rows| - 1].0;
      } else if UniqueKeys(init) {
        AppendUnique(init, row.0, row.1);
      }
    }
  }

  /** Dropping duplicates leaves no row only when there was none. */
  lemma FirstRowsEmpty(rows: seq<GlossaryRow>)
    ensures FirstRows(rows) == [] <==> rows == []
  {
    FirstRowsFacts(rows);
    if rows != [] {
      assert HasKey(rows, rows[0].0);
    }
  }

  /** `add_ontology_data_to_parameters`' list of glossary ids with no
      registered parameter, in glossary order. */
  function MissingParameters(glossary: seq<GlossaryRow>, known: set<string>): (r: seq<string>)
    ensures forall id :: id in r <==> HasKey(glossary, id) && id !in known
  {
    if |glossary| == 0 then []
    else
      var init := glossary[..|glossary| - 1];
      var id := glossary[|glossary| - 1].0;
      var before := MissingParameters(init, known);
      assert forall x :: HasKey(glossary, x) <==> HasKey(init, x) || x == id by {
        forall x ensures HasKey(glossary, x) <==> HasKey(init, x) || x == id {
          if HasKey(glossary, x) {
            var i :| 0 <= i < |glossary| && glossary[i].0 == x;
            if i < |init| { assert init[i] == glossary[i]; }
          }
          if HasKey(init, x) {
            var i :| 0 <= i < |init| && init[i].0 == x;
            assert init[i] == glossary[i];
          }
          if x == id { assert glossary[|glossary| - 1].0 == x; }
        }
      }
      if id in known then before else before + [id]
  }

  // ------------------------------------------------------------ inconsistencies

  /** `d.setdefault(v, []); d[v].append(p)` for each (value, provenance) in
      order: the values to the provenances they were seen with. */
  function Grouped(seen: seq<(Value, Value)>): seq<(Value, seq<Value>)> {
    if |seen| == 0 then []
    else
      var g := Grouped(seen[..|seen| - 1]);
      var last := seen[|seen| - 1];
      Set(g, last.0, Collected(g, last.0) + [last.1])
  }

  /** `d.setdefault(v, [])` on a grouping: the list stored under `v`. */
  function Collected(g: seq<(Value, seq<Value>)>, v: Value): seq<Value> {
    match Get(g, v) case Some(l) => l case None => []
  }

  /** The provenances `v` was seen with, in order. */
  function Provenances(seen: seq<(Value, Value)>, v: Value): seq<Value> {
    if |seen| == 0 then []
    else
      Provenances(seen[..|seen| - 1], v) + (if seen[|seen| - 1].0 == v then [seen[|seen| - 1].1] else [])
  }

  /** The values seen. */
  function SeenValues(seen: seq<(Value, Value)>): set<Value> {
    set i | 0 <= i < |seen| :: seen[i].0
  }

  /** Grouping gives each value seen once, with every provenance it was seen
      with, in order. */
  lemma GroupedFacts(seen: seq<(Value, Value)>)
    ensures UniqueKeys(Grouped(seen))
    ensures KeySet(Grouped(seen)) == SeenValues(seen)
    ensures forall v :: Get(Grouped(seen), v) == if v in SeenValues(seen) then Some(Provenances(seen, v)) else None
  {
    GroupedKeys(seen);
    forall v ensures Get(Grouped(seen), v) == if v in SeenValues(seen) then Some(Provenances(seen, v)) else None {
      GroupedGet(seen, v);
    }
  }

  lemma SeenValuesStep(seen: seq<(Value, Value)>)
    requires |seen| > 0
    ensures SeenValues(seen) == SeenValues(seen[..|seen| - 1]) + {seen[|seen| - 1].0}
  {
    var init := seen[..|seen| - 1];
    assert forall i :: 0 <= i < |init| ==> init[i] == seen[i];
  }

  lemma {:induction false} GroupedKeys(seen: seq<(Value, Value)>)
    ensures UniqueKeys(Grouped(seen))
    ensures KeySet(Grouped(seen)) == SeenValues(seen)
  {
    if |seen| > 0 {
      var init := seen[..|seen| - 1];
      var last := seen[|seen| - 1];
      GroupedKeys(init);
      var g := Grouped(init);
      SetUnique(g, last.0, Collected(g, last.0) + [last.1]);
      SeenValuesStep(seen);
    }
  }

  /** Grouping one more value seen. */
  lemma GroupedSnoc(seen: seq<(Value, Value)>, x: (Value, Value))
    ensures Grouped(seen + [x]) == Set(Grouped(seen), x.0, Collected(Grouped(seen), x.0) + [x.1])
  {
    assert (seen + [x])[..|seen|] == seen;
  }

  /** A value never seen has no provenance. */
  lemma {:induction false} UnseenProvenances(seen: seq<(Value, Value)>, v: Value)
    requires v !in SeenValues(seen)
    ensures Provenances(seen, v) == []
  {
    if |seen| > 0 {
      SeenValuesStep(seen);
      UnseenProvenances(seen[..|seen| - 1], v);
    }
  }

  /** One more value seen: only its own list grows. */
  lemma GroupedStep(seen: seq<(Value, Value)>, w: Value)
    requires |seen| > 0
    ensures var last := seen[|seen| - 1];
      Get(Grouped(seen), w) ==
        if w == last.0 then Some(Collected(Grouped(seen[..|seen| - 1]), w) + [last.1])
        else Get(Grouped(seen[..|seen| - 1]), w)
  {
    var last := seen[|seen| - 1];
    var g := Grouped(seen[..|seen| - 1]);
    SetGet(g, last.0, Collected(g, last.0) + [last.1], w);
  }

  lemma {:induction false} GroupedGet(seen: seq<(Value, Value)>, w: Value)
    ensures Get(Grouped(seen), w) == if w in SeenValues(seen) then Some(Provenances(seen, w)) else None
  {
    if |seen| > 0 {
      var init := seen[..|seen| - 1];
      var last := seen[|seen| - 1];
      GroupedGet(init, w);
      GroupedStep(seen, w);
      SeenValuesStep(seen);
      if w == last.0 {
        if w !in SeenValues(init) {
          UnseenProvenances(init, w);
        }
        assert Collected(Grouped(init), w) == Provenances(init, w);
        assert Provenances(seen, w) == Provenances(init, w) + [last.1];
        assert w in SeenValues(seen);
      } else {
        assert Provenances(init, w) + [] == Provenances(init, w);
        assert Provenances(seen, w) == Provenances(init, w);
        assert w in SeenValues(seen) <==> w in SeenValues(init);
      }
    }
  }

  lemma SubsetSize<T>(a: set<T>, b: set<T>)
    requires a <= b
    ensures |a| <= |b|
  {
    assert b == a + (b - a);
  }

  /** A set has more than one element exactly when it has two different ones. */
  lemma SetOfTwo<T>(s: set<T>)
    ensures |s| > 1 <==> exists a, b :: a in s && b in s && a != b
  {
    if |s| > 1 {
      var a :| a in s;
      assert |s - {a}| == |s| - 1;
      var b :| b in s - {a};
      assert b in s && a != b;
    }
    if exists a, b :: a in s && b in s && a != b {
      var a, b :| a in s && b in s && a != b;
      assert |{a, b}| == 2;
      SubsetSize({a, b}, s);
    }
  }

  /** There is more than one group exactly when two different values were
      seen. */
  lemma SeveralGroups(seen: seq<(Value, Value)>)
    ensures |Grouped(seen)| > 1 <==> exists i, j :: 0 <= i < |seen| && 0 <= j < |seen| && seen[i].0 != seen[j].0
  {
    GroupedKeys(seen);
    KeySetSize(Grouped(seen));
    var s := SeenValues(seen);
    SetOfTwo(s);
    if exists i, j :: 0 <= i < |seen| && 0 <= j < |seen| && seen[i].0 != seen[j].0 {
      var i, j :| 0 <= i < |seen| && 0 <= j < |seen| && seen[i].0 != seen[j].0;
      assert seen[i].0 in s && seen[j].0 in s;
    }
    if exists a, b :: a in s && b in s && a != b {
      var a, b :| a in s && b in s && a != b;
      var i :| 0 <= i < |seen| && seen[i].0 == a;
      var j :| 0 <= j < |seen| && seen[j].0 == b;
    }
  }

  /** A grouping as the Python dict it is: values to lists of provenances. */
  function GroupsValue(g: seq<(Value, seq<Value>)>): Value {
    VDict(seq(|g|, i requires 0 <= i < |g| => (g[i].0, VList(g[i].1))))
  }

  /** `('discipline', id)` or `('glossary', repo)`. */
  function Provenance(kind: string, id: string): Value {
    VTuple([VStr(kind), VStr(id)])
  }

  /** The `message` dict: `unit` when more than one unit was seen, `datatype`
      when more than one datatype was. */
  function InconsistencyMessage(units: seq<(Value, seq<Value>)>, datatypes: seq<(Value, seq<Value>)>): seq<(Value, Value)> {
    (if |units| > 1 then [(VStr("unit"), GroupsValue(units))] else [])
    + (if |datatypes| > 1 then [(VStr("datatype"), GroupsValue(datatypes))] else [])
  }

  /** What the extraction logs read from one registered parameter. */
  datatype ParameterRecord = ParameterRecord(
    id: string,
    /** `[repo.id for repo in parameter.code_repositories]` */
    repositoryIds: seq<string>,
    /** the labels of its usages' disciplines' repositories; None when one
        of those disciplines has no repository */
    usageRepositories: Option<seq<Value>>,
    /** (unit, ('discipline', discipline id)) for each usage, in order */
    units: seq<(Value, Value)>,
    /** (datatype, ('discipline', discipline id)) for each usage, in order */
    datatypes: seq<(Value, Value)>,
    /** `code_repositories_attributes`: repository id to glossary row */
    glossary: seq<(string, Dict<string, Value>)>)

  /** The glossary's contributions, (unit, ('glossary', repo)) and
      (datatype, ('glossary', repo)) per row, or the KeyError of the first
      row that lacks the column, `unit` being read before `datatype`. */
  function GlossarySeen(glossary: seq<(string, Dict<string, Value>)>): Result<(seq<(Value, Value)>, seq<(Value, Value)>), PyError> {
    if |glossary| == 0 then Ok(([], []))
    else
      match GlossarySeen(glossary[..|glossary| - 1])
      case Err(e) => Err(e)
      case Ok((units, datatypes)) =>
        var (repo, row) := glossary[|glossary| - 1];
        match Get(row, "unit")
        case None => Err(KeyError(VStr("unit")))
        case Some(u) =>
          match Get(row, "datatype")
          case None => Err(KeyError(VStr("datatype")))
          case Some(d) => Ok((units + [(u, Provenance("glossary", repo))], datatypes + [(d, Provenance("glossary", repo))]))
  }

  /** Whether a parameter's values disagree: the units (or datatypes) seen
      on its usages, and in the glossary when more than one repository
      describes it. */
  function Disagrees(units: seq<(Value, Value)>, datatypes: seq<(Value, Value)>): bool {
    (exists i, j :: 0 <= i < |units| && 0 <= j < |units| && units[i].0 != units[j].0)
    || (exists i, j :: 0 <= i < |datatypes| && 0 <= j < |datatypes| && datatypes[i].0 != datatypes[j].0)
  }

  /** What `generate_full_extraction_logs` does for one parameter: the writes,
      the repository labels it files under `no_parameter_info` (None: not
      filed), and the exception that stops it. */
  datatype ParameterOutcome = ParameterOutcome(writes: seq<LogWrite>, noInfo: Option<seq<Value>>, error: Option<PyError>)

  /** `list(set(l))`, here in the order of first appearance. */
  function Deduplicated(l: seq<Value>): (r: seq<Value>)
    ensures PyList.Distinct(r) && forall x :: x in r <==> x in l
  {
    if |l| == 0 then []
    else
      var init := Deduplicated(l[..|l| - 1]);
      assert forall x :: x in l <==> x in l[..|l| - 1] || x == l[|l| - 1] by {
        assert l == l[..|l| - 1] + [l[|l| - 1]];
      }
      PyList.AppendNew(init, l[|l| - 1])
  }

  /** The `inconsistencies` write for a parameter, if its values disagree. */
  function Inconsistencies(id: string, units: seq<(Value, Value)>, datatypes: seq<(Value, Value)>): seq<LogWrite> {
    var message := InconsistencyMessage(Grouped(units), Grouped(datatypes));
    if message == [] then [] else [LogWrite("inconsistencies", VStr(id), VDict(message))]
  }

  /** A record is written exactly when two different units or two different
      datatypes were seen. */
  lemma InconsistenciesIff(id: string, units: seq<(Value, Value)>, datatypes: seq<(Value, Value)>)
    ensures Inconsistencies(id, units, datatypes) != [] <==> Disagrees(units, datatypes)
    ensures forall w :: w in Inconsistencies(id, units, datatypes) ==> w.category == "inconsistencies"
  {
    SeveralGroups(units);
    SeveralGroups(datatypes);
  }

  /** `multiple_parameters_info` for a parameter with more than one repository. */
  function MultipleInfo(r: ParameterRecord): seq<LogWrite> {
    if |r.repositoryIds| > 1 then [LogWrite("multiple_parameters_info", VStr(r.id), VList(Strs(r.repositoryIds)))]
    else []
  }

  function ParameterLog(r: ParameterRecord): ParameterOutcome {
    var n := |r.repositoryIds|;
    if n == 0 && r.usageRepositories.None? then
      ParameterOutcome([], None, Some(AttributeError("'NoneType' object has no attribute 'label'")))
    else
      var noInfo := if n == 0 then Some(Deduplicated(r.usageRepositories.value)) else None;
      if n <= 1 then
        ParameterOutcome(Inconsistencies(r.id, r.units, r.datatypes), noInfo, None)
      else
        match GlossarySeen(r.glossary)
        case Err(e) => ParameterOutcome(MultipleInfo(r), None, Some(e))
        case Ok((gu, gd)) =>
          ParameterOutcome(MultipleInfo(r) + Inconsistencies(r.id, r.units + gu, r.datatypes + gd), None, None)
  }

  /** An `inconsistencies` record is written for a parameter exactly when two
      different units, or two different datatypes, were seen for it: on its
      usages, plus its glossary rows when more than one repository describes
      it (the glossary is read only then). */
  lemma InconsistencyRecorded(r: ParameterRecord)
    requires ParameterLog(r).error.None?
    ensures var n := |r.repositoryIds|;
      var recorded := exists w :: w in ParameterLog(r).writes && w.category == "inconsistencies";
      (n <= 1 ==> (recorded <==> Disagrees(r.units, r.datatypes)))
      && (n > 1 ==> (GlossarySeen(r.glossary).Ok?
                     && (recorded <==> Disagrees(r.units + GlossarySeen(r.glossary).value.0,
                                                 r.datatypes + GlossarySeen(r.glossary).value.1))))
  {
    var n := |r.repositoryIds|;
    if n <= 1 {
      var w := Inconsistencies(r.id, r.units, r.datatypes);
      InconsistenciesIff(r.id, r.units, r.datatypes);
      if w != [] { assert w[0] in w; }
    } else {
      var (gu, gd) := GlossarySeen(r.glossary).value;
      var w := Inconsistencies(r.id, r.units + gu, r.datatypes + gd);
      InconsistenciesIff(r.id, r.units + gu, r.datatypes + gd);
      var all := MultipleInfo(r) + w;
      assert forall x :: x in all <==> x in MultipleInfo(r) || x in w;
      if w != [] { assert w[0] in all; }
    }
  }

  /** `multiple_parameters_info` lists a parameter's repositories exactly
      when it has more than one; it is filed under `no_parameter_info`
      exactly when it has none; and the pass stops on it exactly when a
      repository-less parameter has a usage whose discipline has no
      repository, or a glossary row it reads lacks a column. */
  lemma ParameterOutcomeShape(r: ParameterRecord)
    ensures var o := ParameterLog(r);
      var n := |r.repositoryIds|;
      (n > 1 && o.error.None? ==> o.writes[0] == LogWrite("multiple_parameters_info", VStr(r.id), VList(Strs(r.repositoryIds))))
      && (n <= 1 ==> forall w :: w in o.writes ==> w.category == "inconsistencies")
      && (o.noInfo.Some? <==> n == 0 && r.usageRepositories.Some?)
      && (o.noInfo.Some? ==> forall x :: x in o.noInfo.value <==> x in r.usageRepositories.value)
      && (o.error.Some? <==> (n == 0 && r.usageRepositories.None?) || (n > 1 && GlossarySeen(r.glossary).Err?))
  {
    var n := |r.repositoryIds|;
    if n <= 1 && !(n == 0 && r.usageRepositories.None?) {
      InconsistenciesIff(r.id, r.units, r.datatypes);
    }
  }

  /** The synthesis counts: the sizes of the registries. */
  datatype Counts = Counts(
    codeRepositories: nat, sosDisciplines: nat, processRepositories: nat, sosProcesses: nat,
    usecases: nat, couplings: nat, parameters: nat)

  function SynthesisWrites(c: Counts): seq<LogWrite> {
    [LogWrite("synthesis", VStr("code_repositories"), VInt(c.codeRepositories)),
     LogWrite("synthesis", VStr("sos_disciplines"), VInt(c.sosDisciplines)),
     LogWrite("synthesis", VStr("process_repositories"), VInt(c.processRepositories)),
     LogWrite("synthesis", VStr("sos_processes"), VInt(c.sosProcesses)),
     LogWrite("synthesis", VStr("usecases"), VInt(c.usecases)),
     LogWrite("synthesis", VStr("couplings"), VInt(c.couplings)),
     LogWrite("synthesis", VStr("parameters"), VInt(c.parameters))]
  }

  /** The per-parameter pass over the registered parameters, in order: the
      writes done, `no_parameter_info` as built, and the exception that
      stopped the pass. */
  function ParametersLog(records: seq<ParameterRecord>): (seq<LogWrite>, seq<(string, seq<Value>)>, Option<PyError>) {
    Pass(Outcomes(records))
  }

  /** Each parameter's id and outcome, in order. */
  function Outcomes(records: seq<ParameterRecord>): (r: seq<(string, ParameterOutcome)>)
    ensures |r| == |records| && forall k :: 0 <= k < |records| ==> r[k] == (records[k].id, ParameterLog(records[k]))
  {
    seq(|records|, k requires 0 <= k < |records| => (records[k].id, ParameterLog(records[k])))
  }

  /** The pass over the parameters' outcomes, in order: the writes of each,
      until one raises; `no_parameter_info` gains the repositories of each
      parameter that has them. */
  function Pass(outcomes: seq<(string, ParameterOutcome)>): (seq<LogWrite>, seq<(string, seq<Value>)>, Option<PyError>) {
    if |outcomes| == 0 then ([], [], None)
    else
      var before := Pass(outcomes[..|outcomes| - 1]);
      var (id, o) := outcomes[|outcomes| - 1];
      if before.2.Some? then before
      else
        (before.0 + o.writes,
         if o.noInfo.Some? then before.1 + [(id, o.noInfo.value)] else before.1,
         o.error)
  }

  /** One more parameter, while nothing has stopped the pass: its writes
      follow, its repositories are filed when it has none, and its exception
      is the pass's. */
  lemma PassStep(outcomes: seq<(string, ParameterOutcome)>, i: nat)
    requires i < |outcomes| && Pass(outcomes[..i]).2.None?
    ensures Pass(outcomes[..i + 1]).0 == Pass(outcomes[..i]).0 + outcomes[i].1.writes
    ensures Pass(outcomes[..i + 1]).1 ==
      if outcomes[i].1.noInfo.Some?
      then Pass(outcomes[..i]).1 + [(outcomes[i].0, outcomes[i].1.noInfo.value)]
      else Pass(outcomes[..i]).1
    ensures Pass(outcomes[..i + 1]).2 == outcomes[i].1.error
  {
    assert outcomes[..i + 1][..i] == outcomes[..i];
  }

  /** The pass stops at the first parameter that raises: the parameters
      after it change nothing. */
  lemma {:induction false} PassSticks(outcomes: seq<(string, ParameterOutcome)>, i: nat)
    requires i <= |outcomes| && Pass(outcomes[..i]).2.Some?
    ensures Pass(outcomes) == Pass(outcomes[..i])
    decreases |outcomes| - i
  {
    if i == |outcomes| {
      assert outcomes[..i] == outcomes;
    } else {
      assert outcomes[..i + 1][..i] == outcomes[..i];
      PassSticks(outcomes, i + 1);
    }
  }

  /** What the pass over a prefix of the parameters writes is where the
      whole pass's writes start. */
  lemma {:induction false} PassGrows(outcomes: seq<(string, ParameterOutcome)>, i: nat)
    requires i <= |outcomes|
    ensures Pass(outcomes[..i]).0 <= Pass(outcomes).0
    decreases |outcomes| - i
  {
    if i == |outcomes| {
      assert outcomes[..i] == outcomes;
    } else {
      assert outcomes[..i + 1][..i] == outcomes[..i];
      PassGrows(outcomes, i + 1);
    }
  }

  /** Every write of the pass is a write of one of the outcomes. */
  lemma {:induction false} PassWritesFrom(outcomes: seq<(string, ParameterOutcome)>, k: nat)
    requires k < |Pass(outcomes).0|
    ensures exists i :: 0 <= i < |outcomes| && Pass(outcomes).0[k] in outcomes[i].1.writes
  {
    var n := |outcomes|;
    var before := Pass(outcomes[..n - 1]);
    var init := outcomes[..n - 1];
    if k < |before.0| {
      PassWritesFrom(init, k);
      var i :| 0 <= i < |init| && before.0[k] in init[i].1.writes;
      assert init[i] == outcomes[i];
    } else {
      assert Pass(outcomes).0[k] == outcomes[n - 1].1.writes[k - |before.0|];
    }
  }

  /** Every repository label of `no_parameter_info`, once, in order. */
  function NoInfoRepositories(noInfo: seq<(string, seq<Value>)>): seq<Value> {
    if |noInfo| == 0 then []
    else Deduplicated(NoInfoRepositories(noInfo[..|noInfo| - 1]) + noInfo[|noInfo| - 1].1)
  }

  /** The parameters filed under repository label `repo`, in order. */
  function ParametersFiledUnder(noInfo: seq<(string, seq<Value>)>, repo: Value): seq<Value> {
    if |noInfo| == 0 then []
    else
      var (p, repos) := noInfo[|noInfo| - 1];
      ParametersFiledUnder(noInfo[..|noInfo| - 1], repo) + (if repo in repos then [VStr(p)] else [])
  }

  /** The inverted dict as writes: one `no_parameter_info` write per
      repository label, listing its parameters. */
  function NoInfoWrites(noInfo: seq<(string, seq<Value>)>): seq<LogWrite> {
    var repos := NoInfoRepositories(noInfo);
    seq(|repos|, i requires 0 <= i < |repos| =>
      LogWrite("no_parameter_info", repos[i], VList(ParametersFiledUnder(noInfo, repos[i]))))
  }

  /** The inversion loses nothing: a repository label is listed exactly when a
      parameter was filed under it, and a parameter appears in a label's list
      exactly when it was filed under that label. */
  lemma {:induction false} NoInfoInverted(noInfo: seq<(string, seq<Value>)>, repo: Value, p: string)
    ensures repo in NoInfoRepositories(noInfo) <==> exists k :: 0 <= k < |noInfo| && repo in noInfo[k].1
    ensures VStr(p) in ParametersFiledUnder(noInfo, repo) <==>
      exists k :: 0 <= k < |noInfo| && noInfo[k].0 == p && repo in noInfo[k].1
  {
    NoInfoListed(noInfo, repo);
    NoInfoFiled(noInfo, repo, p);
  }

  lemma {:induction false} NoInfoListed(noInfo: seq<(string, seq<Value>)>, repo: Value)
    ensures repo in NoInfoRepositories(noInfo) <==> exists k :: 0 <= k < |noInfo| && repo in noInfo[k].1
  {
    if |noInfo| > 0 {
      var init := noInfo[..|noInfo| - 1];
      NoInfoListed(init, repo);
      assert forall k :: 0 <= k < |init| ==> init[k] == noInfo[k];
    }
  }

  lemma {:induction false} NoInfoFiled(noInfo: seq<(string, seq<Value>)>, repo: Value, p: string)
    ensures VStr(p) in ParametersFiledUnder(noInfo, repo) <==>
      exists k :: 0 <= k < |noInfo| && noInfo[k].0 == p && repo in noInfo[k].1
  {
    if |noInfo| > 0 {
      var init := noInfo[..|noInfo| - 1];
      NoInfoFiled(init, repo, p);
      assert forall k :: 0 <= k < |init| ==> init[k] == noInfo[k];
    }
  }

  /** What `generate_full_extraction_logs` writes after the per-parameter
      pass: the no_parameter_info entries, then the synthesis counts. */
  function ClosingWrites(noInfo: seq<(string, seq<Value>)>, counts: Counts): seq<LogWrite> {
    NoInfoWrites(noInfo) + SynthesisWrites(counts)
  }

  /** The log document `generate_full_extraction_logs` leaves (None: the
      extractor has none) and the exception it raises: the per-parameter pass,
      stopped by the first raise; then, when nothing was raised, the closing
      entries and the traceability entry.  Without a document every
      `add_to_log` is skipped but the final
      `logs_dict['code_repositories_traceability'] = ...` fails. */
  function ExtractionLogs(logs: Option<Logs>, records: seq<ParameterRecord>, counts: Counts,
                          traceability: Value, now: string): (Option<Logs>, Option<PyError>)
  {
    var pass := ParametersLog(records);
    match logs
    case None =>
      (None, if pass.2.Some? then pass.2 else Some(TypeError("'NoneType' object does not support item assignment")))
    case Some(l) =>
      var (logged, raised) := LoggedAll(l, pass.0, now);
      if raised.Some? then (Some(logged), raised)
      else if pass.2.Some? then (Some(logged), pass.2)
      else
        var (closed, raisedLater) := LoggedAll(logged, ClosingWrites(pass.1, counts), now);
        if raisedLater.Some? then (Some(closed), raisedLater)
        else (Some(Set(closed, "code_repositories_traceability", traceability)), None)
  }

  /** When nothing is raised, the traceability entry holds the repositories'
      traceability dict and every category the pass does not write is as it
      was. */
  lemma ExtractionLogsKeep(logs: Logs, records: seq<ParameterRecord>, counts: Counts, traceability: Value,
                           now: string, other: string)
    requires other != "code_repositories_traceability" && other != "multiple_parameters_info"
    requires other != "inconsistencies" && other != "no_parameter_info" && other != "synthesis"
    requires ExtractionLogs(Some(logs), records, counts, traceability, now).1.None?
    ensures var (result, _) := ExtractionLogs(Some(logs), records, counts, traceability, now);
      result.Some?
      && Get(result.value, "code_repositories_traceability") == Some(traceability)
      && Get(result.value, other) == Get(logs, other)
  {
    var pass := ParametersLog(records);
    var w := pass.0;
    ParametersLogCategories(records);
    LoggedAllKeeps(logs, w, now, other);
    var logged := LoggedAll(logs, w, now).0;
    assert LoggedAll(logs, w, now).1.None? && pass.2.None?;
    var closing := ClosingWrites(pass.1, counts);
    ClosingWritesKeep(logged, pass.1, counts, now, other);
    var closed := LoggedAll(logged, closing, now).0;
    assert ExtractionLogs(Some(logs), records, counts, traceability, now)
      == (Some(Set(closed, "code_repositories_traceability", traceability)), None);
    SetGet(closed, "code_repositories_traceability", traceability, "code_repositories_traceability");
    SetGet(closed, "code_repositories_traceability", traceability, other);
  }

  /** The closing entries leave every other category as it was. */
  lemma ClosingWritesKeep(logs: Logs, noInfo: seq<(string, seq<Value>)>, counts: Counts, now: string, other: string)
    requires other != "no_parameter_info" && other != "synthesis"
    ensures Get(LoggedAll(logs, ClosingWrites(noInfo, counts), now).0, other) == Get(logs, other)
  {
    var closing := ClosingWrites(noInfo, counts);
    forall k | 0 <= k < |closing| ensures closing[k].category != other {
      if k >= |NoInfoWrites(noInfo)| {
        assert closing[k] in SynthesisWrites(counts);
      } else {
        assert closing[k] == NoInfoWrites(noInfo)[k];
      }
    }
    LoggedAllKeeps(logs, closing, now, other);
  }

  /** The per-parameter pass writes only its two categories. */
  lemma ParametersLogCategories(records: seq<ParameterRecord>)
    ensures forall k :: 0 <= k < |ParametersLog(records).0| ==>
      ParametersLog(records).0[k].category in {"multiple_parameters_info", "inconsistencies"}
  {
    var outcomes := Outcomes(records);
    forall k | 0 <= k < |Pass(outcomes).0|
      ensures Pass(outcomes).0[k].category in {"multiple_parameters_info", "inconsistencies"}
    {
      PassWritesFrom(outcomes, k);
      var i :| 0 <= i < |outcomes| && Pass(outcomes).0[k] in outcomes[i].1.writes;
      ParameterLogCategories(records[i]);
    }
  }

  /** One parameter writes only those two categories. */
  lemma ParameterLogCategories(r: ParameterRecord)
    ensures forall w :: w in ParameterLog(r).writes ==> w.category in {"multiple_parameters_info", "inconsistencies"}
  {
    var n := |r.repositoryIds|;
    if n <= 1 && !(n == 0 && r.usageRepositories.None?) {
      InconsistenciesIff(r.id, r.units, r.datatypes);
    } else if n > 1 && GlossarySeen(r.glossary).Ok? {
      var (gu, gd) := GlossarySeen(r.glossary).value;
      InconsistenciesIff(r.id, r.units + gu, r.datatypes + gd);
    }
  }
}
