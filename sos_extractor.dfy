/** `SoSDecentralizedCodeDataExtractor`, the part of it that turns what was
    found in the code (descriptor dicts, coupling tuples, glossary rows) into
    registered entities and into the extraction log.  Everything the source
    obtains by importing, parsing or running code, by reading files or by
    calling git arrives here as a parameter. */
module SoSExtractor {
  import opened Wrappers
  import opened PyValue
  import opened PyDict
  import PyStr
  import PyList
  import opened ExtractionLog
  import opened SoSEntities
  import opened ExtractorRules

  /** The parameter ids the string-keyed entries give. */
  function ParameterNames(d: Descriptors): set<string> {
    if |d| == 0 then {}
    else
      var key := d[|d| - 1].0;
      ParameterNames(d[..|d| - 1]) + (if key.VStr? then {ParamName(key.s)} else {})
  }

  /** The usage ids of the string-keyed entries, in order. */
  function UsageIds(disciplineId: string, io: string, d: Descriptors): seq<string> {
    if |d| == 0 then []
    else
      var key := d[|d| - 1].0;
      UsageIds(disciplineId, io, d[..|d| - 1]) + (if key.VStr? then [UsageIdOf(disciplineId, io, key.s)] else [])
  }

  /** One more entry of a descriptor dict adds its ids when its key is a string. */
  lemma DescriptorsStep(disciplineId: string, io: string, d: Descriptors, i: nat)
    requires i < |d|
    ensures d[i].0.VStr? ==> ParameterNames(d[..i + 1]) == ParameterNames(d[..i]) + {ParamName(d[i].0.s)}
    ensures d[i].0.VStr? ==> UsageIds(disciplineId, io, d[..i + 1]) == UsageIds(disciplineId, io, d[..i]) + [UsageIdOf(disciplineId, io, d[i].0.s)]
    ensures !d[i].0.VStr? ==> ParameterNames(d[..i + 1]) == ParameterNames(d[..i])
    ensures !d[i].0.VStr? ==> UsageIds(disciplineId, io, d[..i + 1]) == UsageIds(disciplineId, io, d[..i])
  {
    assert d[..i + 1][..i] == d[..i];
    assert UsageIds(disciplineId, io, d[..i]) + [] == UsageIds(disciplineId, io, d[..i]);
  }

  /** Appending each of `xs` that is not yet in the list. */
  function AppendAll(ids: seq<string>, xs: seq<string>): seq<string> {
    if |xs| == 0 then ids
    else PyList.AppendNew(AppendAll(ids, xs[..|xs| - 1]), xs[|xs| - 1])
  }

  lemma {:induction false} ParameterNamesIff(d: Descriptors, name: string)
    ensures name in ParameterNames(d) <==> exists i :: 0 <= i < |d| && d[i].0.VStr? && ParamName(d[i].0.s) == name
  {
    if |d| > 0 {
      var init := d[..|d| - 1];
      ParameterNamesIff(init, name);
      assert forall i :: 0 <= i < |init| ==> init[i] == d[i];
    }
  }

  lemma {:induction false} UsageIdsIff(disciplineId: string, io: string, d: Descriptors, id: string)
    ensures id in UsageIds(disciplineId, io, d) <==>
      exists i :: 0 <= i < |d| && d[i].0.VStr? && id == UsageIdOf(disciplineId, io, d[i].0.s)
  {
    if |d| > 0 {
      var init := d[..|d| - 1];
      UsageIdsIff(disciplineId, io, init, id);
      assert forall i :: 0 <= i < |init| ==> init[i] == d[i];
    }
  }

  /** Distinct declared names give distinct usage ids. */
  lemma {:induction false} UsageIdsDistinct(disciplineId: string, io: string, d: Descriptors)
    requires UniqueKeys(d)
    ensures PyList.Distinct(UsageIds(disciplineId, io, d))
  {
    if |d| > 0 {
      var init := d[..|d| - 1];
      var key := d[|d| - 1].0;
      assert UniqueKeys(init) by {
        assert forall i :: 0 <= i < |init| ==> init[i] == d[i];
      }
      UsageIdsDistinct(disciplineId, io, init);
      if key.VStr? {
        LastUsageIdNew(disciplineId, io, d);
      }
    }
  }

  /** The id of the last entry is not among the ids of the earlier ones. */
  lemma LastUsageIdNew(disciplineId: string, io: string, d: Descriptors)
    requires UniqueKeys(d) && |d| > 0 && d[|d| - 1].0.VStr?
    ensures UsageIdOf(disciplineId, io, d[|d| - 1].0.s) !in UsageIds(disciplineId, io, d[..|d| - 1])
  {
    var init, key := d[..|d| - 1], d[|d| - 1].0;
    var id := UsageIdOf(disciplineId, io, key.s);
    if id in UsageIds(disciplineId, io, init) {
      UsageIdsIff(disciplineId, io, init, id);
      var i :| 0 <= i < |init| && init[i].0.VStr? && id == UsageIdOf(disciplineId, io, init[i].0.s);
      assert init[i] == d[i];
      UsageIdInjective(disciplineId, io, init[i].0.s, key.s);
      assert false;
    }
  }

  /** One usage registration of `generate_parameters`, on the fields of the
      registered usages by usage id: a new id takes the fields the
      `ParameterUsage` constructor reads from the descriptor, and an id
      already registered is refreshed by `updateAttributes`. */
  function Registered(table: map<string, UsageFields>, id: string, attributes: Dict<string, Value>)
    : map<string, UsageFields>
  {
    table[id := if id in table then AcceptedUpdate(attributes, table[id]) else Descriptor(attributes)]
  }

  /** The fields of the registered usages once `generate_parameters` walked
      the string-keyed entries of `d`. */
  function RegisteredFields(table: map<string, UsageFields>, disciplineId: string, io: string, d: Descriptors)
    : map<string, UsageFields>
  {
    if |d| == 0 then table
    else
      var before := RegisteredFields(table, disciplineId, io, d[..|d| - 1]);
      var (key, attributes) := d[|d| - 1];
      if key.VStr? then Registered(before, UsageIdOf(disciplineId, io, key.s), attributes) else before
  }

  lemma RegisteredFieldsStep(table: map<string, UsageFields>, disciplineId: string, io: string, d: Descriptors, i: nat)
    requires i < |d|
    ensures RegisteredFields(table, disciplineId, io, d[..i + 1]) ==
      if d[i].0.VStr? then Registered(RegisteredFields(table, disciplineId, io, d[..i]), UsageIdOf(disciplineId, io, d[i].0.s), d[i].1)
      else RegisteredFields(table, disciplineId, io, d[..i])
  {
    assert d[..i + 1][..i] == d[..i];
  }

  /** The usages registered after the walk are the old ones and those `d`
      names; a usage `d` does not name keeps its fields. */
  lemma {:induction false} RegisteredFieldsOthers(table: map<string, UsageFields>, disciplineId: string, io: string,
                                                  d: Descriptors, id: string)
    ensures id in RegisteredFields(table, disciplineId, io, d) <==> id in table || id in UsageIds(disciplineId, io, d)
    ensures id !in UsageIds(disciplineId, io, d) && id in table ==>
      RegisteredFields(table, disciplineId, io, d)[id] == table[id]
  {
    if |d| > 0 {
      RegisteredFieldsOthers(table, disciplineId, io, d[..|d| - 1], id);
    }
  }

  /** With distinct declared names, the usage of entry `i` ends with the
      descriptor's fields when its id was new, and with its old fields
      refreshed by the entry's attributes when it was registered already. */
  lemma {:induction false} RegisteredFieldsEntry(table: map<string, UsageFields>, disciplineId: string, io: string,
                                                 d: Descriptors, i: nat)
    requires UniqueKeys(d) && i < |d| && d[i].0.VStr?
    ensures UsageIdOf(disciplineId, io, d[i].0.s) in RegisteredFields(table, disciplineId, io, d)
    ensures var id := UsageIdOf(disciplineId, io, d[i].0.s);
      RegisteredFields(table, disciplineId, io, d)[id] ==
        if id in table then AcceptedUpdate(d[i].1, table[id]) else Descriptor(d[i].1)
  {
    var n := |d| - 1;
    var init := d[..n];
    var id := UsageIdOf(disciplineId, io, d[i].0.s);
    var before := RegisteredFields(table, disciplineId, io, init);
    RegisteredFieldsStep(table, disciplineId, io, d, n);
    assert d[..n + 1] == d;
    if i == n {
      LastUsageIdNew(disciplineId, io, d);
      RegisteredFieldsOthers(table, disciplineId, io, init, id);
      RegisteredAt(before, id, d[i].1, id);
    } else {
      assert init[i] == d[i];
      assert UniqueKeys(init) by {
        assert forall j :: 0 <= j < n ==> init[j] == d[j];
      }
      RegisteredFieldsEntry(table, disciplineId, io, init, i);
      var key := d[n].0;
      if key.VStr? {
        var last := UsageIdOf(disciplineId, io, key.s);
        if last == id {
          UsageIdInjective(disciplineId, io, key.s, d[i].0.s);
          assert false;
        }
        RegisteredAt(before, last, d[n].1, id);
      }
    }
  }

  /** One registration sets the entry under its id and keeps the others. */
  lemma RegisteredAt(table: map<string, UsageFields>, id: string, attributes: Dict<string, Value>, other: string)
    ensures other in Registered(table, id, attributes) <==> other in table || other == id
    ensures other != id && other in table ==> Registered(table, id, attributes)[other] == table[other]
    ensures Registered(table, id, attributes)[id] ==
      if id in table then AcceptedUpdate(attributes, table[id]) else Descriptor(attributes)
  {
  }

  /** A parameter's state after `add_ontology_data_to_parameters` applied
      the glossary row `row` of `repository` to it: the five ontology fields
      take the row's non-None values, the repository is listed once, and
      the row is stored under the repository's id; nothing else changes. */
  function SuppliedState(s: ParameterState, repository: CodeRepository, row: Dict<string, Value>): ParameterState {
    SetUnique(s.codeRepositoriesAttributes, repository.id, row);
    ParameterState(
      Overridden(row, "label", s.entityLabel),
      Overridden(row, "unit", s.unit),
      Overridden(row, "definition", s.definition),
      Overridden(row, "definitionSource", s.definitionSource),
      s.dataType,
      Overridden(row, "ACLTag", s.aclTag),
      s.instances,
      PyList.AppendNew(s.codeRepositories, repository),
      s.disciplinesUsingParameterIds,
      Set(s.codeRepositoriesAttributes, repository.id, row))
  }

  /** A supplied parameter lists the repository and holds its row under the
      repository's id; its type, usages and disciplines are untouched. */
  lemma SuppliedStateRecords(s: ParameterState, repository: CodeRepository, row: Dict<string, Value>)
    ensures var r := SuppliedState(s, repository, row);
      repository in r.codeRepositories && Get(r.codeRepositoriesAttributes, repository.id) == Some(row)
      && r.dataType == s.dataType && r.instances == s.instances
      && r.disciplinesUsingParameterIds == s.disciplinesUsingParameterIds
  {
    SetGet(s.codeRepositoriesAttributes, repository.id, row, repository.id);
  }

  /** Supplying the same row again changes nothing. */
  lemma SuppliedStateIdempotent(s: ParameterState, repository: CodeRepository, row: Dict<string, Value>)
    ensures SuppliedState(SuppliedState(s, repository, row), repository, row) == SuppliedState(s, repository, row)
  {
    SetSet(s.codeRepositoriesAttributes, repository.id, row, row);
  }

  /** A state whose fields are those `SuppliedState` gives is that state. */
  lemma SuppliedStateFrom(before: ParameterState, after: ParameterState, repository: CodeRepository,
                          row: Dict<string, Value>)
    requires after.unit == Overridden(row, "unit", before.unit)
    requires after.definition == Overridden(row, "definition", before.definition)
    requires after.definitionSource == Overridden(row, "definitionSource", before.definitionSource)
    requires after.aclTag == Overridden(row, "ACLTag", before.aclTag)
    requires after.entityLabel == Overridden(row, "label", before.entityLabel)
    requires after.codeRepositories == PyList.AppendNew(before.codeRepositories, repository)
    requires after.codeRepositoriesAttributes == Set(before.codeRepositoriesAttributes, repository.id, row)
    requires after.dataType == before.dataType && after.instances == before.instances
    requires after.disciplinesUsingParameterIds == before.disciplinesUsingParameterIds
    ensures after == SuppliedState(before, repository, row)
  {
  }

  /** The parameter states after `add_ontology_data_to_parameters`: each
      parameter `glossary` has a row for is supplied with that row, the others
      are left as they were. */
  function Glossed(states: map<string, ParameterState>, glossary: Dict<string, Dict<string, Value>>,
                   repository: CodeRepository): (r: map<string, ParameterState>)
    ensures r.Keys == states.Keys
  {
    map id | id in states :: if HasKey(glossary, id) then SuppliedState(states[id], repository, Get(glossary, id).value)
      else states[id]
  }

  /** One more glossary row supplies its own parameter and no other. */
  lemma GlossedStep(states: map<string, ParameterState>, glossary: Dict<string, Dict<string, Value>>, k: nat,
                    repository: CodeRepository)
    requires k < |glossary|
    ensures var (id, row) := glossary[k]; var before := Glossed(states, glossary[..k], repository);
      Glossed(states, glossary[..k + 1], repository) ==
        if id in states then before[id := SuppliedState(before[id], repository, row)] else before
  {
    var (id, row) := glossary[k];
    PrefixStep(glossary, k);
    PrefixLacksKey(glossary, k);
    var before, after := Glossed(states, glossary[..k], repository), Glossed(states, glossary[..k + 1], repository);
    forall j | j in states && j != id
      ensures after[j] == before[j]
    {
      assert Get(glossary[..k + 1], j) == Get(glossary[..k], j);
    }
    if id in states {
      TableUpdatedAt(before, after, id);
    }
  }

  /** A parameter that has a row in `glossary` records the repository, and
      the row under the repository's id. */
  lemma GlossedRecords(states: map<string, ParameterState>, glossary: Dict<string, Dict<string, Value>>,
                       repository: CodeRepository, id: string)
    requires id in states && HasKey(glossary, id)
    ensures var s := Glossed(states, glossary, repository)[id];
      repository in s.codeRepositories && Get(s.codeRepositoriesAttributes, repository.id) == Get(glossary, id)
  {
    SuppliedStateRecords(states[id], repository, Get(glossary, id).value);
  }

  /** Supplying the same glossary twice leaves the parameters as supplying it once. */
  lemma GlossedIdempotent(states: map<string, ParameterState>, glossary: Dict<string, Dict<string, Value>>,
                          repository: CodeRepository)
    ensures Glossed(Glossed(states, glossary, repository), glossary, repository) == Glossed(states, glossary, repository)
  {
    var once := Glossed(states, glossary, repository);
    forall id | id in states && HasKey(glossary, id) {
      SuppliedStateIdempotent(states[id], repository, Get(glossary, id).value);
    }
    assert Glossed(once, glossary, repository) == once;
  }

  /** The side of a discipline `generate_parameters` attaches usages to:
      `io` is "input", "output", or anything else, which attaches nothing. */
  datatype Side = Input | Output | Neither

  function SideOf(io: string): (side: Side)
    ensures side == Input <==> io == "input"
    ensures side == Output <==> io == "output"
  {
    if io == "input" then Input else if io == "output" then Output else Neither
  }

  /** The id list of the side `side` once `ids` were attached to the side
      `attached`: only that side gains them. */
  function SideIds(side: Side, attached: Side, before: seq<string>, ids: seq<string>): seq<string> {
    if side == attached then AppendAll(before, ids) else before
  }

  /** A table that gained or changed only the entry at `k`. */
  lemma TableUpdatedAt<V>(m: map<string, V>, m': map<string, V>, k: string)
    requires m'.Keys == m.Keys + {k}
    requires forall j :: j in m && j != k ==> m'[j] == m[j]
    ensures m' == m[k := m'[k]]
  {
  }

  lemma AppendAllOne(ids: seq<string>, x: string)
    ensures AppendAll(ids, [x]) == PyList.AppendNew(ids, x)
  {
    assert [x][..0] == [];
  }

  /** Attaching one more id extends the attached list. */
  lemma SideIdsStep(side: Side, attached: Side, before: seq<string>, ids: seq<string>, x: string)
    ensures SideIds(side, attached, SideIds(side, attached, before, ids), [x]) == SideIds(side, attached, before, ids + [x])
  {
    if side == attached {
      var before' := AppendAll(before, ids);
      assert [x][..0] == [];
      assert AppendAll(before', [x]) == PyList.AppendNew(before', x);
      assert (ids + [x])[..|ids|] == ids;
      assert AppendAll(before, ids + [x]) == PyList.AppendNew(before', x);
    }
  }

  lemma {:induction false} AppendAllMembers(ids: seq<string>, xs: seq<string>, x: string)
    ensures x in AppendAll(ids, xs) <==> x in ids || x in xs
    ensures PyList.Distinct(ids) ==> PyList.Distinct(AppendAll(ids, xs))
    ensures |AppendAll(ids, xs)| >= |ids| && AppendAll(ids, xs)[..|ids|] == ids
  {
    if |xs| > 0 {
      var init := xs[..|xs| - 1];
      AppendAllMembers(ids, init, x);
      AppendAllMembers(ids, init, xs[|xs| - 1]);
      assert xs == init + [xs[|xs| - 1]];
    }
  }

  /** Appending ids none of which is present, and none twice, appends them all. */
  lemma {:induction false} AppendAllFresh(ids: seq<string>, xs: seq<string>)
    requires PyList.Distinct(xs) && forall k :: 0 <= k < |xs| ==> xs[k] !in ids
    ensures AppendAll(ids, xs) == ids + xs
  {
    if |xs| > 0 {
      var init := xs[..|xs| - 1];
      AppendAllFresh(ids, init);
      assert xs == init + [xs[|xs| - 1]];
      assert xs[|xs| - 1] !in init;
    }
  }

  /** The extractor's registries and log. */
  // ------------------------------------------------------------ log calls

  /** The document and the exception one `add_to_log` call leaves: nothing
      happens when there is no document. */
  function LogCall(logs: Option<Logs>, category: string, sub: Value, message: Value, exception: LogException,
                   now: string): (r: (Option<Logs>, Option<PyError>))
    ensures logs.None? <==> r.0.None?
    ensures logs.None? ==> r.1.None?
  {
    match logs
    case None => (None, None)
    case Some(l) =>
      var (logged, raised) := Logged(l, category, sub, message, exception, now);
      (Some(logged), raised)
  }

  /** The same for a run of calls that stops at the first raise. */
  function LogCalls(logs: Option<Logs>, writes: seq<LogWrite>, now: string): (r: (Option<Logs>, Option<PyError>))
    ensures logs.None? <==> r.0.None?
    ensures logs.None? ==> r.1.None?
  {
    match logs
    case None => (None, None)
    case Some(l) =>
      var (logged, raised) := LoggedAll(l, writes, now);
      (Some(logged), raised)
  }

  /** One more call of a run that has not raised is one more `add_to_log`. */
  lemma LogCallsStep(logs: Option<Logs>, writes: seq<LogWrite>, k: nat, now: string)
    requires k < |writes| && LogCalls(logs, writes[..k], now).1.None?
    ensures LogCalls(logs, writes[..k + 1], now)
            == LogCall(LogCalls(logs, writes[..k], now).0, writes[k].category, writes[k].sub, writes[k].message,
                       NoException, now)
  {
    assert writes[..k + 1][..k] == writes[..k];
  }

  /** A run that raised, or that made every call, is the whole run. */
  lemma LogCallsStop(logs: Option<Logs>, writes: seq<LogWrite>, k: nat, now: string)
    requires k <= |writes| && (k == |writes| || LogCalls(logs, writes[..k], now).1.Some?)
    ensures LogCalls(logs, writes, now) == LogCalls(logs, writes[..k], now)
  {
    if k < |writes| {
      assert writes == writes[..k] + writes[k..];
      LoggedAllAppend(logs.value, writes[..k], writes[k..], now);
    } else {
      assert writes[..k] == writes;
    }
  }

  /** `ExtractionLogs` as the extractor's two runs of log calls: the
      per-parameter pass, then the closing entries, then the traceability
      assignment. */
  lemma ExtractionLogsByCalls(logs: Option<Logs>, records: seq<ParameterRecord>, counts: Counts,
                              traceability: Value, now: string)
    ensures var pass := ParametersLog(records);
      var first := LogCalls(logs, pass.0, now);
      ExtractionLogs(logs, records, counts, traceability, now) ==
        if first.1.Some? then first
        else if pass.2.Some? then (first.0, pass.2)
        else
          var second := LogCalls(first.0, ClosingWrites(pass.1, counts), now);
          if second.1.Some? then second
          else if second.0.None? then (None, Some(TypeError("'NoneType' object does not support item assignment")))
          else (Some(Set(second.0.value, "code_repositories_traceability", traceability)), None)
  {
  }

  /** Two runs of calls one after the other, on an optional document. */
  lemma LogCallsAppend(logs: Option<Logs>, first: seq<LogWrite>, second: seq<LogWrite>, now: string)
    ensures LogCalls(logs, first + second, now) ==
      if LogCalls(logs, first, now).1.Some? then LogCalls(logs, first, now)
      else LogCalls(LogCalls(logs, first, now).0, second, now)
  {
    if logs.Some? {
      LoggedAllAppend(logs.value, first, second, now);
    }
  }

  /** One more parameter of the pass, logged after the ones before it. */
  lemma PassLoggedStep(logs: Option<Logs>, outcomes: seq<(string, ParameterOutcome)>, i: nat, now: string)
    requires i < |outcomes| && Pass(outcomes[..i]).2.None? && LogCalls(logs, Pass(outcomes[..i]).0, now).1.None?
    ensures LogCalls(logs, Pass(outcomes[..i + 1]).0, now)
      == LogCalls(LogCalls(logs, Pass(outcomes[..i]).0, now).0, outcomes[i].1.writes, now)
  {
    PassStep(outcomes, i);
    LogCallsAppend(logs, Pass(outcomes[..i]).0, outcomes[i].1.writes, now);
  }

  /** Where the loop over the parameters stops, the whole pass is logged:
      at the end, at a raise of a log call, or at a parameter's exception. */
  lemma PassLoggedEnd(logs: Option<Logs>, outcomes: seq<(string, ParameterOutcome)>, i: nat, now: string)
    requires i <= |outcomes|
    requires i == |outcomes| || Pass(outcomes[..i]).2.Some? || LogCalls(logs, Pass(outcomes[..i]).0, now).1.Some?
    ensures LogCalls(logs, Pass(outcomes).0, now) == LogCalls(logs, Pass(outcomes[..i]).0, now)
    ensures LogCalls(logs, Pass(outcomes[..i]).0, now).1.None? ==> Pass(outcomes) == Pass(outcomes[..i])
  {
    if i == |outcomes| {
      assert outcomes[..i] == outcomes;
    } else if Pass(outcomes[..i]).2.Some? {
      PassSticks(outcomes, i);
    } else {
      var done := Pass(outcomes[..i]).0;
      PassGrows(outcomes, i);
      assert Pass(outcomes).0 == done + Pass(outcomes).0[|done|..];
      LogCallsAppend(logs, done, Pass(outcomes).0[|done|..], now);
    }
  }

  // ------------------------------------------------------------ what the full extraction log reads

  /** `[instance.sos_discipline.repository.label for instance in ...]`; None
      when one of the disciplines has no repository. */
  function UsageRepositories(usages: seq<ParameterUsage>): (r: Option<seq<Value>>)
    ensures r.Some? <==> forall i :: 0 <= i < |usages| ==> usages[i].sosDiscipline.repository != null
    ensures r.Some? ==> (|r.value| == |usages|
      && forall i :: 0 <= i < |usages| ==> r.value[i] == usages[i].sosDiscipline.repository.entityLabel)
  {
    if forall i :: 0 <= i < |usages| ==> usages[i].sosDiscipline.repository != null
    then Some(seq(|usages|, i requires 0 <= i < |usages| => usages[i].sosDiscipline.repository.entityLabel))
    else None
  }

  /** (unit, ('discipline', discipline id)) for each usage, in order. */
  function UnitsSeen(usages: seq<ParameterUsage>): (r: seq<(Value, Value)>)
    reads set u | u in usages
    ensures |r| == |usages|
  {
    if |usages| == 0 then []
    else
      var u := usages[|usages| - 1];
      UnitsSeen(usages[..|usages| - 1]) + [(u.unit, Provenance("discipline", u.sosDiscipline.id))]
  }

  /** (datatype, ('discipline', discipline id)) for each usage, in order. */
  function DatatypesSeen(usages: seq<ParameterUsage>): (r: seq<(Value, Value)>)
    reads set u | u in usages
    ensures |r| == |usages|
  {
    if |usages| == 0 then []
    else
      var u := usages[|usages| - 1];
      DatatypesSeen(usages[..|usages| - 1]) + [(u.dataType, Provenance("discipline", u.sosDiscipline.id))]
  }

  /** What `generate_full_extraction_logs` reads of one parameter. */
  function RecordOf(p: Parameter): (r: ParameterRecord)
    reads p, set u | u in p.instances
    ensures r.id == p.id && |r.repositoryIds| == |p.codeRepositories|
  {
    ParameterRecord(p.id, RepositoryIds(p.codeRepositories), UsageRepositories(p.instances),
                    UnitsSeen(p.instances), DatatypesSeen(p.instances), p.codeRepositoriesAttributes)
  }

  /** The records of the registered parameters, in registration order. */
  function RecordsOf(entries: seq<(string, Parameter)>): (r: seq<ParameterRecord>)
    reads set e | e in entries :: e.1, set e, u | e in entries && u in e.1.instances :: u
    ensures |r| == |entries|
  {
    if |entries| == 0 then []
    else RecordsOf(entries[..|entries| - 1]) + [RecordOf(entries[|entries| - 1].1)]
  }

  /** A glossary file as `retrieve_parameter_glossary_for_code_repository`
      finds it: absent, unreadable (the exception reading it raised), or its
      rows in file order. */
  datatype GlossaryFile = NoGlossary | Unreadable(error: PyError) | GlossaryRows(rows: seq<GlossaryRow>)

  /** `f"Parameters glossary does not exist for repo {repo_id}"`. */
  function AbsentGlossaryMessage(repoId: string): string {
    "Parameters glossary does not exist for repo " + repoId
  }

  /** `f"Impossible to retrieve parameter glossary for repo {repo_id}"`. */
  function FailedGlossaryMessage(repoId: string): string {
    "Impossible to retrieve parameter glossary for repo " + repoId
  }

  /** `{repo_id: duplicated_list}`. */
  function DuplicatesMessage(repoId: string, duplicated: seq<string>): Value {
    VDict([(VStr(repoId), VList(Strs(duplicated)))])
  }

  /** Reading `code_repository.id` of the missing repository. */
  const NoRepositoryError := AttributeError("'NoneType' object has no attribute 'id'")

  /** The duplicates of a glossary are either absent or logged without a
      raise. */
  predicate DuplicatesLogged(logs: Option<Logs>, repoId: string, rows: seq<GlossaryRow>, now: string) {
    var duplicated := DuplicatedIds(rows);
    duplicated == [] || LogCall(logs, "errors", VStr("duplicateParametersGlossary"),
                                DuplicatesMessage(repoId, duplicated), NoException, now).1.None?
  }

  class CodeDataExtractor {
    var logsDict: Option<Logs>
    const codeRepositoriesDict: Value
    const codeRepositories: SoSEntityDict<CodeRepository>
    const sosProcessRepositories: SoSEntityDict<SoSProcessRepository>
    const sosProcesses: SoSEntityDict<SoSProcess>
    const sosDisciplines: SoSEntityDict<SoSDiscipline>
    const parameters: SoSEntityDict<Parameter>
    const parametersUsages: SoSEntityDict<ParameterUsage>
    const usecases: SoSEntityDict<SoSUsecase>
    const couplings: SoSEntityDict<SoSCoupling>

    /** Every registry is keyed by its entities' ids. */
    ghost predicate Valid()
      reads this, codeRepositories, sosProcessRepositories, sosProcesses, sosDisciplines,
            parameters, parametersUsages, usecases, couplings
    {
      codeRepositories.Valid() && sosProcessRepositories.Valid() && sosProcesses.Valid()
      && sosDisciplines.Valid() && usecases.Valid() && couplings.Valid()
      && codeRepositories.idOf == CodeRepositoryId && sosDisciplines.idOf == DisciplineId
      && couplings.idOf == CouplingId
      && ParametersValid() && UsagesValid()
    }

    /** The registries the extraction steps update are distinct objects. */
    predicate Separate() {
      parameters as object != parametersUsages as object
      && couplings as object != parameters as object && couplings as object != parametersUsages as object
      && couplings as object != sosDisciplines as object && couplings as object != codeRepositories as object
      && sosDisciplines as object != parameters as object && sosDisciplines as object != parametersUsages as object
      && codeRepositories as object != parameters as object && codeRepositories as object != parametersUsages as object
      && codeRepositories as object != sosDisciplines as object
      && couplings as object != sosProcessRepositories as object && couplings as object != sosProcesses as object
      && couplings as object != usecases as object
    }

    /** The parameter registry is keyed by parameter id. */
    ghost predicate ParametersValid()
      reads parameters
    {
      parameters.Valid() && parameters.idOf == ParameterId
    }

    /** The usage registry is keyed by usage id. */
    ghost predicate UsagesValid()
      reads this, parametersUsages
    {
      parametersUsages.Valid() && parametersUsages.idOf == UsageId
    }

    /** The state of each registered parameter, by parameter id. */
    ghost function ParameterStates(): (states: map<string, ParameterState>)
      requires ParametersValid()
      reads parameters, parameters.values
      ensures states.Keys == parameters.added
    {
      map id | id in parameters.added :: parameters.Get(id).value.State()
    }

    /** The fields of each registered usage, by usage id. */
    ghost function UsageTable(): (table: map<string, UsageFields>)
      requires UsagesValid()
      reads this, parametersUsages, parametersUsages.values
      ensures table.Keys == parametersUsages.added
    {
      map id | id in parametersUsages.added :: parametersUsages.Get(id).value.Fields()
    }

    /** `logsDict` is the log document the caller passes (None: no logging);
        `codeRepositoriesDict` is what `retrieve_code_repositories` returned. */
    constructor (logsDict: Option<Logs>, codeRepositoriesDict: Value)
      ensures Valid() && Separate()
      ensures this.logsDict == logsDict && this.codeRepositoriesDict == codeRepositoriesDict
      ensures codeRepositories.added == {} && sosProcessRepositories.added == {} && sosProcesses.added == {}
      ensures sosDisciplines.added == {} && parameters.added == {} && parametersUsages.added == {}
      ensures usecases.added == {} && couplings.added == {}
    {
      this.logsDict := logsDict;
      this.codeRepositoriesDict := codeRepositoriesDict;
      codeRepositories := new SoSEntityDict<CodeRepository>(CodeRepositoryId);
      sosProcessRepositories := new SoSEntityDict<SoSProcessRepository>(ProcessRepositoryId);
      sosProcesses := new SoSEntityDict<SoSProcess>(ProcessId);
      sosDisciplines := new SoSEntityDict<SoSDiscipline>(DisciplineId);
      parameters := new SoSEntityDict<Parameter>(ParameterId);
      parametersUsages := new SoSEntityDict<ParameterUsage>(UsageId);
      usecases := new SoSEntityDict<SoSUsecase>(UsecaseId);
      couplings := new SoSEntityDict<SoSCoupling>(CouplingId);
    }

    /** `add_to_log`: nothing when there is no log document; otherwise the
        document `Logged` describes (create the category, open the
        sub-category, write by category), and the exception it raises. */
    method AddToLog(category: string, sub: Value, message: Value, exception: LogException, now: string)
      returns (raised: Option<PyError>)
      modifies this`logsDict
      ensures old(logsDict).None? ==> logsDict.None? && raised.None?
      ensures old(logsDict).Some? ==>
        logsDict == Some(Logged(old(logsDict).value, category, sub, message, exception, now).0)
        && raised == Logged(old(logsDict).value, category, sub, message, exception, now).1
    {
      raised := None;
      if logsDict.Some? {
        var logged := Logged(logsDict.value, category, sub, message, exception, now);
        logsDict := Some(logged.0);
        raised := logged.1;
      }
    }

    /** The parameter registered under `name`, created from `attributes`
        (and registered) when there is none. */
    method FindOrCreateParameter(name: string, attributes: Dict<string, Value>) returns (parameter: Parameter)
      requires ParametersValid() && UsagesValid() && Separate()
      modifies parameters
      ensures ParametersValid() && UsagesValid() && unchanged(parametersUsages)
      ensures UsageTable() == old(UsageTable())
      ensures parameters.added == old(parameters.added) + {name}
      ensures parameters.Get(name) == Some(parameter)
      ensures old(parameters.entries) <= parameters.entries
      ensures parameters.values == old(parameters.values)
        || (fresh(parameter) && parameters.values == old(parameters.values) + {parameter})
    {
      var known := parameters.Get(name);
      if known.None? {
        parameter := CreateParameter(name, attributes);
      } else {
        parameter := known.value;
      }
    }

    /** The `None` branch of `FindOrCreateParameter`: a new parameter, registered. */
    method CreateParameter(name: string, attributes: Dict<string, Value>) returns (parameter: Parameter)
      requires ParametersValid() && UsagesValid() && Separate() && name !in parameters.added
      modifies parameters
      ensures ParametersValid() && UsagesValid() && unchanged(parametersUsages)
      ensures UsageTable() == old(UsageTable())
      ensures fresh(parameter)
      ensures parameters.added == old(parameters.added) + {name}
      ensures parameters.Get(name) == Some(parameter)
      ensures parameters.entries == old(parameters.entries) + [(name, parameter)]
      ensures parameters.values == old(parameters.values) + {parameter}
    {
      parameter := new Parameter(name, VStr(name), attributes);
      parameters.Add(parameter);
      TableKept();
    }

    /** The usage registered under `usageId`: created for `parameter` and
        `discipline` (registering itself with the parameter) when there is
        none, and otherwise updated from `attributes`. */
    method FindOrCreateUsage(usageId: string, attributes: Dict<string, Value>, parameter: Parameter, discipline: SoSDiscipline)
      returns (usage: ParameterUsage)
      requires ParametersValid() && UsagesValid() && Separate() && parameter in parameters.values
      modifies parametersUsages, parametersUsages.values, parameter`instances, parameter`disciplinesUsingParameterIds
      ensures ParametersValid() && UsagesValid() && unchanged(parameters)
      ensures parametersUsages.added == old(parametersUsages.added) + {usageId}
      ensures parametersUsages.Get(usageId) == Some(usage) && usage.id == usageId
      ensures old(parametersUsages.entries) <= parametersUsages.entries
      ensures parametersUsages.values == old(parametersUsages.values)
        || (fresh(usage) && parametersUsages.values == old(parametersUsages.values) + {usage})
      ensures UsageTable() == Registered(old(UsageTable()), usageId, attributes)
    {
      var existing := parametersUsages.Get(usageId);
      if existing.None? {
        usage := CreateUsage(usageId, attributes, parameter, discipline);
      } else {
        usage := existing.value;
        UpdateUsage(usage, attributes);
      }
    }

    /** The `None` branch of `FindOrCreateUsage`: a new usage, registered. */
    method CreateUsage(usageId: string, attributes: Dict<string, Value>, parameter: Parameter, discipline: SoSDiscipline)
      returns (usage: ParameterUsage)
      requires ParametersValid() && UsagesValid() && Separate() && usageId !in parametersUsages.added
      modifies parametersUsages, parameter`instances, parameter`disciplinesUsingParameterIds
      ensures ParametersValid() && UsagesValid() && unchanged(parameters)
      ensures fresh(usage) && usage.id == usageId
      ensures parametersUsages.added == old(parametersUsages.added) + {usageId}
      ensures parametersUsages.Get(usageId) == Some(usage)
      ensures parametersUsages.entries == old(parametersUsages.entries) + [(usageId, usage)]
      ensures parametersUsages.values == old(parametersUsages.values) + {usage}
      ensures UsageTable() == old(UsageTable())[usageId := Descriptor(attributes)]
    {
      usage := NewUsage(usageId, attributes, parameter, discipline);
      TableKept();
      RegisterUsage(usage);
    }

    /** `parametersUsages.add` of a usage whose id is not yet taken. */
    method RegisterUsage(usage: ParameterUsage)
      requires UsagesValid() && usage.id !in parametersUsages.added
      modifies parametersUsages
      ensures UsagesValid()
      ensures parametersUsages.added == old(parametersUsages.added) + {usage.id}
      ensures parametersUsages.Get(usage.id) == Some(usage)
      ensures parametersUsages.entries == old(parametersUsages.entries) + [(usage.id, usage)]
      ensures parametersUsages.values == old(parametersUsages.values) + {usage}
      ensures UsageTable() == old(UsageTable())[usage.id := usage.Fields()]
    {
      parametersUsages.Add(usage);
      TableGrown(usage);
    }

    /** The usage table depends only on the registry and the usages in it. */
    twostate lemma TableKept()
      requires old(UsagesValid()) && unchanged(parametersUsages)
      requires forall u: ParameterUsage :: u in parametersUsages.values ==> unchanged(u)
      ensures UsagesValid() && UsageTable() == old(UsageTable())
    {
    }

    /** Registering `usage` under a new id leaves every other entry of the
        usage table as it was. */
    twostate lemma TableGrown(usage: ParameterUsage)
      requires old(UsagesValid()) && UsagesValid()
      requires parametersUsages.added == old(parametersUsages.added) + {usage.id}
      requires parametersUsages.Get(usage.id) == Some(usage)
      requires forall id :: id != usage.id ==> parametersUsages.Get(id) == old(parametersUsages.Get(id))
      requires forall u: ParameterUsage :: u in old(parametersUsages.values) ==> unchanged(u)
      ensures UsageTable() == old(UsageTable())[usage.id := usage.Fields()]
    {
      var before, after := old(UsageTable()), UsageTable();
      forall id | id in before && id != usage.id
        ensures after[id] == before[id]
      {
        assert old(parametersUsages.Get(id)) == parametersUsages.Get(id);
      }
      TableUpdatedAt(before, after, usage.id);
    }

    /** The other branch of `FindOrCreateUsage`: the registered usage is
        updated in place and no other usage changes. */
    method UpdateUsage(usage: ParameterUsage, attributes: Dict<string, Value>)
      requires UsagesValid() && parametersUsages.Get(usage.id) == Some(usage)
      modifies usage
      ensures UsageTable() == old(UsageTable())[usage.id := AcceptedUpdate(attributes, old(usage.Fields()))]
    {
      ghost var before := UsageTable();
      RefreshUsage(usage, attributes);
      ghost var after := UsageTable();
      forall id | id in before && id != usage.id
        ensures after[id] == before[id]
      {
        assert parametersUsages.Get(id).value != usage;
      }
      TableUpdatedAt(before, after, usage.id);
    }

    /** A new usage of `parameter` in `discipline`, listed once among the
        parameter's usages; its fields are `ParameterUsage`'s constructor's
        contract. */
    static method NewUsage(usageId: string, attributes: Dict<string, Value>, parameter: Parameter, discipline: SoSDiscipline)
      returns (usage: ParameterUsage)
      modifies parameter`instances, parameter`disciplinesUsingParameterIds
      ensures fresh(usage) && usage.id == usageId && usage.instanceOf == parameter && usage.sosDiscipline == discipline
      ensures usage.Fields() == Descriptor(attributes)
      ensures parameter.instances == old(parameter.instances) + [usage]
      ensures parameter.disciplinesUsingParameterIds ==
        PyList.AppendNew(old(parameter.disciplinesUsingParameterIds), discipline.id)
    {
      usage := new ParameterUsage(usageId, VStr(usageId), attributes, parameter, discipline);
      parameter.AddUsage(usage);
    }

    /** `updateAttributes` on a usage already registered: accepted values
        overwrite the fields they name. */
    static method RefreshUsage(usage: ParameterUsage, attributes: Dict<string, Value>)
      modifies usage
      ensures usage.Fields() == AcceptedUpdate(attributes, old(usage.Fields()))
    {
      usage.UpdateAttributes(attributes);
    }

    /** One string-keyed entry of `generate_parameters`: the parameter is
        looked up by its last name segment and created when missing; the usage
        is looked up by its id, created when missing and updated otherwise;
        then attached to the side `io` names. */
    method RegisterParameter(param: string, attributes: Dict<string, Value>, io: string, side: Side, discipline: SoSDiscipline)
      returns (parameter: Parameter, usage: ParameterUsage)
      requires ParametersValid() && UsagesValid() && Separate() && discipline.Valid()
      modifies parameters, parametersUsages, parameters.values, parametersUsages.values, discipline
      ensures ParametersValid() && UsagesValid() && discipline.Valid()
      ensures parameters.added == old(parameters.added) + {ParamName(param)}
      ensures parametersUsages.added == old(parametersUsages.added) + {UsageIdOf(discipline.id, io, param)}
      ensures old(parameters.entries) <= parameters.entries
      ensures old(parametersUsages.entries) <= parametersUsages.entries
      ensures parameters.Get(ParamName(param)) == Some(parameter)
      ensures parametersUsages.Get(UsageIdOf(discipline.id, io, param)) == Some(usage)
      ensures parameters.values == old(parameters.values)
        || (fresh(parameter) && parameters.values == old(parameters.values) + {parameter})
      ensures parametersUsages.values == old(parametersUsages.values)
        || (fresh(usage) && parametersUsages.values == old(parametersUsages.values) + {usage})
      ensures discipline.inputIds == SideIds(Input, side, old(discipline.inputIds), [UsageIdOf(discipline.id, io, param)])
      ensures discipline.outputIds == SideIds(Output, side, old(discipline.outputIds), [UsageIdOf(discipline.id, io, param)])
      ensures side != Input ==> discipline.inputUsages == old(discipline.inputUsages)
      ensures side != Output ==> discipline.outputUsages == old(discipline.outputUsages)
      ensures UsageTable() == Registered(old(UsageTable()), UsageIdOf(discipline.id, io, param), attributes)
    {
      parameter := FindOrCreateParameter(ParamName(param), attributes);
      usage := FindOrCreateUsage(UsageIdOf(discipline.id, io, param), attributes, parameter, discipline);
      Attach(discipline, usage, side);
    }

    /** `RegisterParameter` with the part of its contract `generate_parameters`
        carries from one entry to the next: what is registered and what is
        attached. */
    method RegisterEntry(param: string, attributes: Dict<string, Value>, io: string, side: Side, discipline: SoSDiscipline)
      returns (parameter: Parameter, usage: ParameterUsage)
      requires ParametersValid() && UsagesValid() && Separate() && discipline.Valid()
      modifies parameters, parametersUsages, parameters.values, parametersUsages.values, discipline
      ensures ParametersValid() && UsagesValid() && discipline.Valid()
      ensures parameters.added == old(parameters.added) + {ParamName(param)}
      ensures parametersUsages.added == old(parametersUsages.added) + {UsageIdOf(discipline.id, io, param)}
      ensures old(parameters.entries) <= parameters.entries
      ensures old(parametersUsages.entries) <= parametersUsages.entries
      ensures forall p :: p in parameters.values ==> p in old(parameters.values) || fresh(p)
      ensures forall u :: u in parametersUsages.values ==> u in old(parametersUsages.values) || fresh(u)
      ensures discipline.inputIds == SideIds(Input, side, old(discipline.inputIds), [UsageIdOf(discipline.id, io, param)])
      ensures discipline.outputIds == SideIds(Output, side, old(discipline.outputIds), [UsageIdOf(discipline.id, io, param)])
      ensures side != Input ==> discipline.inputUsages == old(discipline.inputUsages)
      ensures side != Output ==> discipline.outputUsages == old(discipline.outputUsages)
      ensures UsageTable() == Registered(old(UsageTable()), UsageIdOf(discipline.id, io, param), attributes)
    {
      parameter, usage := RegisterParameter(param, attributes, io, side, discipline);
    }

    /** The `io` branch of `generate_parameters`: the usage joins the input
        side for "input", the output side for "output", and neither
        otherwise. */
    method Attach(discipline: SoSDiscipline, usage: ParameterUsage, side: Side)
      requires discipline.Valid() && UsagesValid()
      modifies discipline`inputUsages, discipline`inputIds, discipline`outputUsages, discipline`outputIds
      ensures discipline.Valid()
      ensures UsagesValid() && UsageTable() == old(UsageTable())
      ensures discipline.inputIds == SideIds(Input, side, old(discipline.inputIds), [usage.id])
      ensures discipline.outputIds == SideIds(Output, side, old(discipline.outputIds), [usage.id])
      ensures side != Input ==> discipline.inputUsages == old(discipline.inputUsages)
      ensures side != Output ==> discipline.outputUsages == old(discipline.outputUsages)
    {
      if side == Input {
        AppendAllOne(discipline.inputIds, usage.id);
        discipline.AddInputParameterUsage(usage);
      } else if side == Output {
        AppendAllOne(discipline.outputIds, usage.id);
        discipline.AddOutputParameterUsage(usage);
      }
      TableKept();
    }

    /** `generate_parameters`: every string-keyed entry registers its parameter
        and usage; other keys (tuples) register nothing.  Registered entities
        are kept in place (the registries only grow at the end), and each
        side of the discipline gains the usage ids when `io` names it. */
    method GenerateParameters(paramDict: Descriptors, io: string, discipline: SoSDiscipline)
      requires ParametersValid() && UsagesValid() && Separate() && discipline.Valid()
      modifies parameters, parametersUsages, parameters.values, parametersUsages.values, discipline
      ensures ParametersValid() && UsagesValid() && discipline.Valid()
      ensures parameters.added == old(parameters.added) + ParameterNames(paramDict)
      ensures forall id :: id in parametersUsages.added <==>
        id in old(parametersUsages.added) || id in UsageIds(discipline.id, io, paramDict)
      ensures old(parameters.entries) <= parameters.entries
      ensures old(parametersUsages.entries) <= parametersUsages.entries
      ensures discipline.inputIds == SideIds(Input, SideOf(io), old(discipline.inputIds), UsageIds(discipline.id, io, paramDict))
      ensures discipline.outputIds == SideIds(Output, SideOf(io), old(discipline.outputIds), UsageIds(discipline.id, io, paramDict))
      ensures SideOf(io) != Input ==> discipline.inputUsages == old(discipline.inputUsages)
      ensures SideOf(io) != Output ==> discipline.outputUsages == old(discipline.outputUsages)
      ensures UsageTable() == RegisteredFields(old(UsageTable()), discipline.id, io, paramDict)
    {
      var side := SideOf(io);
      ghost var table := UsageTable();
      for i := 0 to |paramDict|
        invariant ParametersValid() && UsagesValid() && discipline.Valid()
        invariant forall name :: name in parameters.added <==>
          name in old(parameters.added) || name in ParameterNames(paramDict[..i])
        invariant forall id :: id in parametersUsages.added <==>
          id in old(parametersUsages.added) || id in UsageIds(discipline.id, io, paramDict[..i])
        invariant old(parameters.entries) <= parameters.entries
        invariant old(parametersUsages.entries) <= parametersUsages.entries
        invariant forall p :: p in parameters.values ==> p in old(parameters.values) || fresh(p)
        invariant forall u :: u in parametersUsages.values ==> u in old(parametersUsages.values) || fresh(u)
        invariant discipline.inputIds == SideIds(Input, side, old(discipline.inputIds), UsageIds(discipline.id, io, paramDict[..i]))
        invariant discipline.outputIds == SideIds(Output, side, old(discipline.outputIds), UsageIds(discipline.id, io, paramDict[..i]))
        invariant side != Input ==> discipline.inputUsages == old(discipline.inputUsages)
        invariant side != Output ==> discipline.outputUsages == old(discipline.outputUsages)
        invariant UsageTable() == RegisteredFields(table, discipline.id, io, paramDict[..i])
      {
        RegisterAt(paramDict, i, io, side, discipline, old(parameters.added), old(parametersUsages.added),
                   old(discipline.inputIds), old(discipline.outputIds), table);
      }
      assert paramDict[..|paramDict|] == paramDict;
    }

    /** The body of the loop of `generate_parameters` for the entry
        `paramDict[i]`: what the entries before it registered, extended by
        what this one registers. */
    method RegisterAt(paramDict: Descriptors, i: nat, io: string, side: Side, discipline: SoSDiscipline,
                      ghost names: set<string>, ghost ids: set<string>, ghost inputIds: seq<string>,
                      ghost outputIds: seq<string>, ghost table: map<string, UsageFields>)
      requires i < |paramDict| && side == SideOf(io)
      requires ParametersValid() && UsagesValid() && Separate() && discipline.Valid()
      requires forall name :: name in parameters.added <==> name in names || name in ParameterNames(paramDict[..i])
      requires forall id :: id in parametersUsages.added <==> id in ids || id in UsageIds(discipline.id, io, paramDict[..i])
      requires discipline.inputIds == SideIds(Input, side, inputIds, UsageIds(discipline.id, io, paramDict[..i]))
      requires discipline.outputIds == SideIds(Output, side, outputIds, UsageIds(discipline.id, io, paramDict[..i]))
      requires UsageTable() == RegisteredFields(table, discipline.id, io, paramDict[..i])
      modifies parameters, parametersUsages, parameters.values, parametersUsages.values, discipline
      ensures ParametersValid() && UsagesValid() && discipline.Valid()
      ensures forall name :: name in parameters.added <==> name in names || name in ParameterNames(paramDict[..i + 1])
      ensures forall id :: id in parametersUsages.added <==>
        id in ids || id in UsageIds(discipline.id, io, paramDict[..i + 1])
      ensures old(parameters.entries) <= parameters.entries
      ensures old(parametersUsages.entries) <= parametersUsages.entries
      ensures forall p :: p in parameters.values ==> p in old(parameters.values) || fresh(p)
      ensures forall u :: u in parametersUsages.values ==> u in old(parametersUsages.values) || fresh(u)
      ensures discipline.inputIds == SideIds(Input, side, inputIds, UsageIds(discipline.id, io, paramDict[..i + 1]))
      ensures discipline.outputIds == SideIds(Output, side, outputIds, UsageIds(discipline.id, io, paramDict[..i + 1]))
      ensures side != Input ==> discipline.inputUsages == old(discipline.inputUsages)
      ensures side != Output ==> discipline.outputUsages == old(discipline.outputUsages)
      ensures UsageTable() == RegisteredFields(table, discipline.id, io, paramDict[..i + 1])
    {
      var (key, attributes) := paramDict[i];
      DescriptorsStep(discipline.id, io, paramDict, i);
      RegisteredFieldsStep(table, discipline.id, io, paramDict, i);
      if key.VStr? {
        ghost var before := UsageIds(discipline.id, io, paramDict[..i]);
        SideIdsStep(Input, side, inputIds, before, UsageIdOf(discipline.id, io, key.s));
        SideIdsStep(Output, side, outputIds, before, UsageIdOf(discipline.id, io, key.s));
        var _, _ := RegisterEntry(key.s, attributes, io, side, discipline);
      }
    }

    // ---------------------------------------------------------- log runs

    /** Several `add_to_log` calls in a row; the first that raises ends the
        run. */
    method AddAllToLog(writes: seq<LogWrite>, now: string) returns (raised: Option<PyError>)
      modifies this`logsDict
      ensures (logsDict, raised) == LogCalls(old(logsDict), writes, now)
    {
      raised := None;
      var k := 0;
      while k < |writes| && raised.None?
        invariant 0 <= k <= |writes|
        invariant (logsDict, raised) == LogCalls(old(logsDict), writes[..k], now)
      {
        LogCallsStep(old(logsDict), writes, k, now);
        raised := AddToLog(writes[k].category, writes[k].sub, writes[k].message, NoException, now);
        k := k + 1;
      }
      LogCallsStop(old(logsDict), writes, k, now);
    }

    /** The end of `get_sos_discipline_internal_variables`: a parsed
        declaration block that says more replaces the loaded one, each
        replacement logged under errors/loadingDiscipline, and an empty
        maturity or ontology data is filled from the parsed one.  A log call
        that raises ends it with that exception. */
    method MergeParsedAttributes(loaded: DisciplineAttributes, parsed: ParsedAttributes, where: string, now: string)
      returns (attributes: Result<DisciplineAttributes, PyError>)
      modifies this`logsDict
      ensures (logsDict, if attributes.Err? then Some(attributes.error) else None)
        == LogCalls(old(logsDict), ReplacementWrites(loaded, parsed, where), now)
      ensures attributes.Ok? ==> attributes.value == Merged(loaded, parsed)
    {
      var raised := AddAllToLog(ReplacementWrites(loaded, parsed, where), now);
      if raised.Some? {
        attributes := Err(raised.value);
      } else {
        attributes := Ok(Merged(loaded, parsed));
      }
    }

    /** `check_ontology_keys`: one errors/ontologyKeys entry per key that is
        not an ontology key of `entity`; reading the keys of a non-dict, or
        the valid keys of an unknown entity, raises before anything is
        logged. */
    method CheckOntologyKeys(ontologyData: Value, entity: string, id: string, now: string)
      returns (raised: Option<PyError>)
      modifies this`logsDict
      ensures OntologyKeyWrites(ontologyData, entity, id).Err? ==>
        logsDict == old(logsDict) && raised == Some(OntologyKeyWrites(ontologyData, entity, id).error)
      ensures OntologyKeyWrites(ontologyData, entity, id).Ok? ==>
        (logsDict, raised) == LogCalls(old(logsDict), OntologyKeyWrites(ontologyData, entity, id).value, now)
    {
      match OntologyKeyWrites(ontologyData, entity, id)
      case Err(e) =>
        raised := Some(e);
      case Ok(writes) =>
        raised := AddAllToLog(writes, now);
    }

    // ---------------------------------------------------------- couplings

    /** `self.parameters_usages.get(id)`. */
    function UsageOrNull(id: string): (u: ParameterUsage?)
      requires UsagesValid()
      reads this, parametersUsages
      ensures u != null <==> id in parametersUsages.added
      ensures u != null ==> u.id == id && u in parametersUsages.values
    {
      match parametersUsages.Get(id)
      case Some(u) => u
      case None => null
    }

    /** A coupling as `generate_couplings` builds it: both disciplines are
        registered, the coupled variable's full name is its label, its id
        joins the two discipline ids and the variable's bare name, and its
        usages are the source's output and the target's input of that bare
        name (null when not registered). */
    ghost predicate Wired(c: SoSCoupling, usecase: SoSUsecase?)
      requires sosDisciplines.Valid() && UsagesValid()
      reads this, sosDisciplines, parametersUsages
    {
      && sosDisciplines.Get(c.disciplineFrom.id) == Some(c.disciplineFrom)
      && sosDisciplines.Get(c.disciplineTo.id) == Some(c.disciplineTo)
      && c.entityLabel.VStr?
      && c.id == CouplingIdOf(c.disciplineFrom.id, c.disciplineTo.id, ParamName(c.entityLabel.s))
      && c.parameterUsageOut == UsageOrNull(UsageIdOf(c.disciplineFrom.id, "output", ParamName(c.entityLabel.s)))
      && c.parameterUsageIn == UsageOrNull(UsageIdOf(c.disciplineTo.id, "input", ParamName(c.entityLabel.s)))
      && c.usecase == usecase
    }

    /** What coupling needs: the discipline, usage and coupling registries
        keyed by their ids, the coupling registry distinct from the other
        two. */
    ghost predicate CouplingsReady()
      reads this, sosDisciplines, parametersUsages, couplings
    {
      sosDisciplines.Valid() && sosDisciplines.idOf == DisciplineId && UsagesValid()
      && couplings.Valid() && couplings.idOf == CouplingId
      && couplings as object != sosDisciplines as object && couplings as object != parametersUsages as object
    }

    /** `generate_couplings`: a tuple whose two disciplines are registered
        gives one coupling per variable; a coupling id already registered
        keeps its first coupling. */
    method GenerateCouplings(list: seq<CouplingTuple>, usecase: SoSUsecase?)
      requires Valid() && Separate()
      modifies couplings
      ensures Valid()
      ensures couplings.added == old(couplings.added) + CouplingIds(list, sosDisciplines.added)
      ensures old(couplings.entries) <= couplings.entries
      ensures forall c :: c in couplings.values ==> c in old(couplings.values) || Wired(c, usecase)
    {
      for i := 0 to |list|
        invariant Valid()
        invariant couplings.added == old(couplings.added) + CouplingIds(list[..i], sosDisciplines.added)
        invariant old(couplings.entries) <= couplings.entries
        invariant forall c :: c in couplings.values ==> c in old(couplings.values) || Wired(c, usecase)
      {
        assert list[..i + 1][..i] == list[..i];
        CoupleTuple(list[i], usecase);
      }
      assert list[..|list|] == list;
    }

    /** The body of the outer loop of `generate_couplings`: the couplings of
        one tuple, when both of its disciplines are registered. */
    method CoupleTuple(t: CouplingTuple, usecase: SoSUsecase?)
      requires Valid() && Separate()
      modifies couplings
      ensures Valid()
      ensures couplings.added == old(couplings.added)
              + (if t.fromModule in sosDisciplines.added && t.toModule in sosDisciplines.added
                 then TupleCouplingIds(t) else {})
      ensures old(couplings.entries) <= couplings.entries
      ensures forall c :: c in couplings.values ==> c in old(couplings.values) || Wired(c, usecase)
    {
      var from := sosDisciplines.Get(t.fromModule);
      var to := sosDisciplines.Get(t.toModule);
      if from.Some? && to.Some? {
        CoupleVariables(from.value, to.value, t.variables, usecase);
      }
    }

    /** The inner loop of `generate_couplings`, for one tuple whose
        disciplines are `from` and `to`. */
    method CoupleVariables(from: SoSDiscipline, to: SoSDiscipline, variables: seq<string>, usecase: SoSUsecase?)
      requires CouplingsReady()
      requires sosDisciplines.Get(from.id) == Some(from) && sosDisciplines.Get(to.id) == Some(to)
      modifies couplings
      ensures CouplingsReady()
      ensures couplings.added == old(couplings.added) + TupleCouplingIds(CouplingTuple(from.id, to.id, variables))
      ensures old(couplings.entries) <= couplings.entries
      ensures forall c :: c in couplings.values ==> c in old(couplings.values) || Wired(c, usecase)
    {
      for j := 0 to |variables|
        invariant CouplingsReady()
        invariant couplings.added == old(couplings.added) + TupleCouplingIds(CouplingTuple(from.id, to.id, variables[..j]))
        invariant old(couplings.entries) <= couplings.entries
        invariant forall c :: c in couplings.values ==> c in old(couplings.values) || Wired(c, usecase)
      {
        assert variables[..j + 1] == variables[..j] + [variables[j]];
        TupleCouplingIdsSnoc(from.id, to.id, variables[..j], variables[j]);
        var _ := AddCoupling(from, to, variables[j], usecase);
      }
      assert variables[..|variables|] == variables;
    }

    /** One coupled variable: a new coupling, kept only when its id is not
        registered yet. */
    method AddCoupling(from: SoSDiscipline, to: SoSDiscipline, variable: string, usecase: SoSUsecase?)
      returns (coupling: SoSCoupling)
      requires CouplingsReady()
      requires sosDisciplines.Get(from.id) == Some(from) && sosDisciplines.Get(to.id) == Some(to)
      modifies couplings
      ensures CouplingsReady() && Wired(coupling, usecase)
      ensures couplings.added == old(couplings.added) + {CouplingIdOf(from.id, to.id, ParamName(variable))}
      ensures old(couplings.entries) <= couplings.entries
      ensures couplings.values == old(couplings.values) || couplings.values == old(couplings.values) + {coupling}
      ensures forall c :: c in couplings.values ==> c in old(couplings.values) || Wired(c, usecase)
      ensures forall c :: old(allocated(c)) ==> (old(Wired(c, usecase)) ==> Wired(c, usecase))
    {
      var name := ParamName(variable);
      coupling := new SoSCoupling(CouplingIdOf(from.id, to.id, name), VStr(variable), from, to,
                                  UsageOrNull(UsageIdOf(from.id, "output", name)),
                                  UsageOrNull(UsageIdOf(to.id, "input", name)), usecase);
      couplings.Add(coupling);
    }

    // ---------------------------------------------------------- parameters glossary

    /** What `add_ontology_data_to_parameters` leaves on a parameter that
        `repository`'s glossary describes with `row`. */
    static ghost predicate Supplied(p: Parameter, repository: CodeRepository, row: Dict<string, Value>)
      reads p
    {
      repository in p.codeRepositories && Get(p.codeRepositoriesAttributes, repository.id) == Some(row)
    }

    /** The three calls `add_ontology_data_to_parameters` makes on a
        registered parameter. */
    static method Supply(p: Parameter, repository: CodeRepository, row: Dict<string, Value>)
      modifies p`unit, p`definition, p`definitionSource, p`aclTag, p`entityLabel, p`codeRepositories,
               p`codeRepositoriesAttributes
      ensures p.State() == SuppliedState(old(p.State()), repository, row)
    {
      ghost var before := p.State();
      p.UpdateOntologyAttributes(row);
      assert unchanged(p`dataType, p`instances, p`disciplinesUsingParameterIds);
      p.AddCodeRepository(repository);
      assert unchanged(p`dataType, p`instances, p`disciplinesUsingParameterIds);
      p.AddCodeRepositoryAttributes(repository, row);
      assert unchanged(p`dataType, p`instances, p`disciplinesUsingParameterIds);
      SuppliedStateFrom(before, p.State(), repository, row);
    }

    /** `add_ontology_data_to_parameters`: every glossary row of a registered
        parameter updates its ontology attributes and records the repository
        and the row under the repository's id; the ids of the other rows are
        logged under parameter_does_not_exist when there are any. */
    method AddOntologyDataToParameters(glossary: Dict<string, Dict<string, Value>>, repository: CodeRepository,
                                       now: string)
      returns (raised: Option<PyError>)
      requires ParametersValid()
      modifies this`logsDict, parameters.values
      ensures ParametersValid()
      ensures ParameterStates() == Glossed(old(ParameterStates()), glossary, repository)
      ensures forall id :: HasKey(glossary, id) && id in parameters.added ==>
        Supplied(parameters.Get(id).value, repository, Get(glossary, id).value)
      ensures var missing := MissingParameters(glossary, parameters.added);
        (logsDict, raised) == if missing == [] then (old(logsDict), None)
          else LogCall(old(logsDict), "parameter_does_not_exist", VStr(repository.id), VList(Strs(missing)), NoException, now)
    {
      ghost var states := ParameterStates();
      var missing := SupplyAll(glossary, repository);
      forall id | HasKey(glossary, id) && id in parameters.added
        ensures Supplied(parameters.Get(id).value, repository, Get(glossary, id).value)
      {
        GlossedRecords(states, glossary, repository, id);
      }
      raised := None;
      if missing != [] {
        raised := AddToLog("parameter_does_not_exist", VStr(repository.id), VList(Strs(missing)), NoException, now);
      }
    }

    /** The loop of `add_ontology_data_to_parameters`: the glossary rows in
        order, and the ids of those that name no registered parameter. */
    method SupplyAll(glossary: Dict<string, Dict<string, Value>>, repository: CodeRepository)
      returns (missing: seq<string>)
      requires ParametersValid()
      modifies parameters.values
      ensures ParametersValid()
      ensures ParameterStates() == Glossed(old(ParameterStates()), glossary, repository)
      ensures missing == MissingParameters(glossary, parameters.added)
    {
      missing := [];
      ghost var states := ParameterStates();
      for k := 0 to |glossary|
        invariant missing == MissingParameters(glossary[..k], parameters.added)
        invariant ParameterStates() == Glossed(states, glossary[..k], repository)
      {
        assert glossary[..k + 1][..k] == glossary[..k];
        var found := SupplyEntry(glossary, k, repository);
        GlossedStep(states, glossary, k, repository);
        if !found {
          missing := missing + [glossary[k].0];
        }
      }
      assert glossary[..|glossary|] == glossary;
    }

    /** The body of the loop of `add_ontology_data_to_parameters` for the
        entry `glossary[k]`: a registered parameter is supplied with its row,
        and every other parameter is left as it was. */
    method SupplyEntry(glossary: Dict<string, Dict<string, Value>>, k: nat, repository: CodeRepository)
      returns (found: bool)
      requires ParametersValid() && k < |glossary|
      modifies parameters.values
      ensures ParametersValid()
      ensures found <==> glossary[k].0 in parameters.added
      ensures var (id, row) := glossary[k];
        ParameterStates() == if found then old(ParameterStates())[id := SuppliedState(old(ParameterStates())[id], repository, row)]
          else old(ParameterStates())
    {
      var (id, row) := glossary[k];
      var p := parameters.Get(id);
      found := p.Some?;
      if found {
        ghost var before := ParameterStates();
        Supply(p.value, repository, row);
        ghost var after := ParameterStates();
        forall j | j in before && j != id
          ensures after[j] == before[j]
        {
          assert parameters.Get(j).value != p.value;
        }
        TableUpdatedAt(before, after, id);
      }
    }

    /** What reading a glossary needs: the repository registry keyed by
        repository id and the parameter registry keyed by parameter id. */
    ghost predicate GlossaryReady()
      reads this, codeRepositories, parameters
    {
      codeRepositories.Valid() && codeRepositories.idOf == CodeRepositoryId && ParametersValid()
    }

    /** The body of the `try` of `retrieve_parameter_glossary_for_code_repository`,
        ending with the exception it raises: an absent file is logged, an
        unreadable one raises, and the rows of a read one go to
        `ApplyGlossaryRows`. */
    method ReadGlossary(repoId: string, file: GlossaryFile, now: string) returns (failure: Option<PyError>)
      requires GlossaryReady()
      modifies this`logsDict, parameters.values
      ensures GlossaryReady()
      ensures file.NoGlossary? ==> ((logsDict, failure) ==
        LogCall(old(logsDict), "errors", VStr("parameterGlossary"), VStr(AbsentGlossaryMessage(repoId)), NoException, now))
      ensures file.Unreadable? ==> logsDict == old(logsDict) && failure == Some(file.error)
      ensures file.GlossaryRows? && DuplicatesLogged(old(logsDict), repoId, file.rows, now) ==>
        if repoId in codeRepositories.added then
          forall id :: HasKey(file.rows, id) && id in parameters.added ==>
            Supplied(parameters.Get(id).value, codeRepositories.Get(repoId).value, Get(file.rows, id).value)
        else
          failure == if file.rows == [] then None else Some(NoRepositoryError)
    {
      match file
      case NoGlossary =>
        failure := AddToLog("errors", VStr("parameterGlossary"), VStr(AbsentGlossaryMessage(repoId)), NoException, now);
      case Unreadable(e) =>
        failure := Some(e);
      case GlossaryRows(rows) =>
        failure := ApplyGlossaryRows(repoId, rows, now);
    }

    /** The rows of a read glossary: the duplicated ids are logged and dropped
        (the first row of an id is kept), and the rows go to the parameters
        through the repository registered under `repoId`; with no such
        repository, a non-empty glossary fails on the repository's id. */
    method ApplyGlossaryRows(repoId: string, rows: seq<GlossaryRow>, now: string) returns (failure: Option<PyError>)
      requires GlossaryReady()
      modifies this`logsDict, parameters.values
      ensures GlossaryReady()
      ensures DuplicatesLogged(old(logsDict), repoId, rows, now) ==>
        if repoId in codeRepositories.added then
          forall id :: HasKey(rows, id) && id in parameters.added ==>
            Supplied(parameters.Get(id).value, codeRepositories.Get(repoId).value, Get(rows, id).value)
        else
          failure == if rows == [] then None else Some(NoRepositoryError)
    {
      failure := None;
      var duplicated := DuplicatedIds(rows);
      if duplicated != [] {
        failure := AddToLog("errors", VStr("duplicateParametersGlossary"), DuplicatesMessage(repoId, duplicated),
                            NoException, now);
      }
      if failure.None? {
        FirstRowsFacts(rows);
        var glossary: Dict<string, Dict<string, Value>> := FirstRows(rows);
        var repository := codeRepositories.Get(repoId);
        if repository.Some? {
          failure := AddOntologyDataToParameters(glossary, repository.value, now);
        } else if glossary != [] {
          failure := Some(NoRepositoryError);
        } else {
          FirstRowsEmpty(rows);
        }
      }
    }

    /** `retrieve_parameter_glossary_for_code_repository`: the repository id
        is the last segment of its path; an exception of the lookup is logged
        under errors/parameterGlossary with the exception, and an exception
        of that log call is what it raises. */
    method RetrieveParameterGlossary(repositoryPath: string, file: GlossaryFile, now: string)
      returns (raised: Option<PyError>)
      requires GlossaryReady()
      modifies this`logsDict, parameters.values
      ensures GlossaryReady()
      ensures var repoId := PyStr.LastSegment(repositoryPath, "/");
        file.Unreadable? ==> ((logsDict, raised) ==
          LogCall(old(logsDict), "errors", VStr("parameterGlossary"), VStr(FailedGlossaryMessage(repoId)),
                  Raised(file.error), now))
      ensures var repoId := PyStr.LastSegment(repositoryPath, "/");
        file.NoGlossary? && LogCall(old(logsDict), "errors", VStr("parameterGlossary"),
                                    VStr(AbsentGlossaryMessage(repoId)), NoException, now).1.None? ==>
          (logsDict, raised) == LogCall(old(logsDict), "errors", VStr("parameterGlossary"),
                                        VStr(AbsentGlossaryMessage(repoId)), NoException, now)
      ensures var repoId := PyStr.LastSegment(repositoryPath, "/");
        file.GlossaryRows? && repoId in codeRepositories.added && DuplicatesLogged(old(logsDict), repoId, file.rows, now) ==>
          forall id :: HasKey(file.rows, id) && id in parameters.added ==>
            Supplied(parameters.Get(id).value, codeRepositories.Get(repoId).value, Get(file.rows, id).value)
    {
      var repoId := PyStr.LastSegment(repositoryPath, "/");
      var failure := ReadGlossary(repoId, file, now);
      raised := None;
      if failure.Some? {
        raised := AddToLog("errors", VStr("parameterGlossary"), VStr(FailedGlossaryMessage(repoId)),
                           Raised(failure.value), now);
      }
    }

    // ---------------------------------------------------------- full extraction log

    /** The registry sizes the synthesis category reports. */
    function CountsNow(): Counts
      requires Valid()
      reads this, codeRepositories, sosProcessRepositories, sosProcesses, sosDisciplines,
            parameters, parametersUsages, usecases, couplings
    {
      Counts(codeRepositories.Len(), sosDisciplines.Len(), sosProcessRepositories.Len(), sosProcesses.Len(),
             usecases.Len(), couplings.Len(), parameters.Len())
    }

    /** `generate_full_extraction_logs`: per registered parameter, in order,
        its multiple_parameters_info and inconsistencies entries; then the
        no_parameter_info entries per repository, the synthesis counts and
        the repositories' traceability dict.  The document left and the
        exception raised are `ExtractionLogs` of the parameters' records. */
    method GenerateFullExtractionLogs(now: string) returns (raised: Option<PyError>)
      requires Valid()
      modifies this`logsDict
      ensures (logsDict, raised) ==
        ExtractionLogs(old(logsDict), old(RecordsOf(parameters.entries)), old(CountsNow()), codeRepositoriesDict, now)
    {
      var records := RecordsOf(parameters.entries);
      var counts := CountsNow();
      ExtractionLogsByCalls(logsDict, records, counts, codeRepositoriesDict, now);
      var noInfo, error;
      noInfo, error, raised := LogParameters(Outcomes(records), now);
      if raised.None? {
        if error.Some? {
          raised := error;
        } else {
          raised := AddAllToLog(ClosingWrites(noInfo, counts), now);
          if raised.None? {
            if logsDict.None? {
              raised := Some(TypeError("'NoneType' object does not support item assignment"));
            } else {
              logsDict := Some(Set(logsDict.value, "code_repositories_traceability", codeRepositoriesDict));
            }
          }
        }
      }
    }

    /** The loop over the registered parameters in
        `generate_full_extraction_logs`: each parameter's entries are logged
        in turn, and `no_parameter_info` is built, until a log call or the
        parameter itself raises. */
    method LogParameters(outcomes: seq<(string, ParameterOutcome)>, now: string)
      returns (noInfo: seq<(string, seq<Value>)>, error: Option<PyError>, raised: Option<PyError>)
      modifies this`logsDict
      ensures (logsDict, raised) == LogCalls(old(logsDict), Pass(outcomes).0, now)
      ensures raised.None? ==> noInfo == Pass(outcomes).1 && error == Pass(outcomes).2
    {
      noInfo, error, raised := [], None, None;
      var i := 0;
      while i < |outcomes| && raised.None? && error.None?
        invariant 0 <= i <= |outcomes|
        invariant noInfo == Pass(outcomes[..i]).1 && error == Pass(outcomes[..i]).2
        invariant (logsDict, raised) == LogCalls(old(logsDict), Pass(outcomes[..i]).0, now)
      {
        PassStep(outcomes, i);
        PassLoggedStep(old(logsDict), outcomes, i, now);
        var (id, outcome) := outcomes[i];
        raised := AddAllToLog(outcome.writes, now);
        if outcome.noInfo.Some? {
          noInfo := noInfo + [(id, outcome.noInfo.value)];
        }
        error := outcome.error;
        i := i + 1;
      }
      PassLoggedEnd(old(logsDict), outcomes, i, now);
    }

    /** Entities registered before `generate_parameters` are the ones found
        after it. */
    lemma KeptByPrefix<T>(before: seq<(string, T)>, after: seq<(string, T)>, id: string)
      requires before <= after && HasKey(before, id)
      ensures Get(after, id) == Get(before, id)
    {
      PrefixKeepsGet(before, after, id);
    }
  }
}
