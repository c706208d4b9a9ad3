/** The entity classes of `sos_entities/`: the first-write-wins registry and
    the disciplines, parameters, parameter usages, processes, process
    repositories, code repositories, usecases and couplings the extractor
    builds.  They refer to one another, so they share one module.

    Ids are fixed at construction (`const`); the descriptive attributes are
    Python values, since the extractor fills them from descriptor dicts and
    spreadsheets without checking their types. */
module SoSEntities {
  import opened Wrappers
  import opened PyValue
  import opened PyDict
  import PyList

  /** `ids` lists the ids of `xs`, position by position. */
  predicate IsIdProjection<T>(xs: seq<T>, ids: seq<string>, idOf: T -> string) {
    |xs| == |ids| && forall k :: 0 <= k < |xs| ==> ids[k] == idOf(xs[k])
  }

  // -------------------------------------------------------------------------
  // Reading descriptor dicts.

  /** `d.get(key, None)`, or the value a field receives when the loop over
      `d.items()` assigns it for `key` and leaves it None otherwise. */
  function Lookup(d: seq<(string, Value)>, key: string): Value
  {
    match Get(d, key)
    case Some(v) => v
    case None => VNone
  }

  /** A field that the value stored under `key` overwrites unless that value
      is None, and that otherwise keeps `current`. */
  function Overridden(d: seq<(string, Value)>, key: string, current: Value): Value
  {
    match Get(d, key)
    case Some(v) => if v != VNone then v else current
    case None => current
  }

  /** The values `updateAttributes` accepts: strings other than `''` and `' '`;
      None, booleans, numbers, lists and dicts are all refused. */
  predicate Accepted(v: Value) {
    v.VStr? && v.s != "" && v.s != " "
  }

  /** A field that an accepted value stored under `key` overwrites, and that
      otherwise keeps `current`. */
  function AcceptedOr(d: seq<(string, Value)>, key: string, current: Value): Value
  {
    match Get(d, key)
    case Some(v) => if Accepted(v) then v else current
    case None => current
  }

  /** Reading one entry further into a dict with distinct keys: only the
      key of the new entry can read differently. */
  lemma LookupStep(d: seq<(string, Value)>, i: nat, key: string)
    requires UniqueKeys(d) && i < |d|
    ensures Get(d[..i + 1], key) == if d[i].0 == key then Some(d[i].1) else Get(d[..i], key)
  {
    PrefixStep(d, i);
  }

  /** The effect of one `if key == name: field = value` branch on `current`.
      Several branches also test `field != value` first, which does not
      change the outcome. */
  function Assigned(key: string, value: Value, name: string, current: Value): Value {
    if key == name then value else current
  }

  /** One entry further, read with the `Assigned` branches of the loops. */
  lemma ReadStep(d: seq<(string, Value)>, i: nat, name: string)
    requires UniqueKeys(d) && i < |d|
    ensures Lookup(d[..i + 1], name) == Assigned(d[i].0, d[i].1, name, Lookup(d[..i], name))
  {
    LookupStep(d, i, name);
  }

  lemma OverrideStep(d: seq<(string, Value)>, i: nat, name: string, current: Value)
    requires UniqueKeys(d) && i < |d|
    ensures Overridden(d[..i + 1], name, current) ==
      if d[i].1 != VNone then Assigned(d[i].0, d[i].1, name, Overridden(d[..i], name, current))
      else Overridden(d[..i], name, current)
  {
    LookupStep(d, i, name);
  }

  lemma UpdateStep(d: seq<(string, Value)>, i: nat, name: string, current: Value)
    requires UniqueKeys(d) && i < |d|
    ensures AcceptedOr(d[..i + 1], name, current) ==
      if Accepted(d[i].1) then Assigned(d[i].0, d[i].1, name, AcceptedOr(d[..i], name, current))
      else AcceptedOr(d[..i], name, current)
  {
    LookupStep(d, i, name);
  }

  /** A field after a loop whose only branch for it is `Assigned(key, value,
      name, field)` has read the entries of `d`, starting from `init`. */
  function LastAssigned(d: seq<(string, Value)>, name: string, init: Value): Value
    decreases |d|
  {
    if |d| == 0 then init
    else Assigned(d[|d| - 1].0, d[|d| - 1].1, name, LastAssigned(d[..|d| - 1], name, init))
  }

  /** With distinct keys, that loop leaves the field at `d.get(name)`. */
  lemma {:induction false} LastAssignedLooksUp(d: seq<(string, Value)>, name: string)
    requires UniqueKeys(d)
    ensures LastAssigned(d, name, VNone) == Lookup(d, name)
    decreases |d|
  {
    if |d| > 0 {
      var n := |d| - 1;
      assert d[..n + 1] == d;
      LastAssignedLooksUp(d[..n], name);
      ReadStep(d, n, name);
    }
  }

  /** The same loop when the branch is only taken for accepted values. */
  function LastAccepted(d: seq<(string, Value)>, name: string, init: Value): Value
    decreases |d|
  {
    if |d| == 0 then init
    else
      var previous := LastAccepted(d[..|d| - 1], name, init);
      if Accepted(d[|d| - 1].1) then Assigned(d[|d| - 1].0, d[|d| - 1].1, name, previous) else previous
  }

  /** With distinct keys, an accepted value under `name` replaces `init`. */
  lemma {:induction false} LastAcceptedIsAcceptedOr(d: seq<(string, Value)>, name: string, init: Value)
    requires UniqueKeys(d)
    ensures LastAccepted(d, name, init) == AcceptedOr(d, name, init)
    decreases |d|
  {
    if |d| > 0 {
      var n := |d| - 1;
      assert d[..n + 1] == d;
      LastAcceptedIsAcceptedOr(d[..n], name, init);
      UpdateStep(d, n, name, init);
    }
  }

  // -------------------------------------------------------------------------
  // The registry.

  /** `SoSEntityDict`: entities by id, where the first entity registered under
      an id is the one kept.  `added` is the set of every id passed to `Add`
      and `values` the set of every entity stored. */
  class SoSEntityDict<T(==)> {
    const idOf: T -> string
    var entries: seq<(string, T)>
    ghost var added: set<string>
    ghost var values: set<T>

    ghost predicate Valid()
      reads this
    {
      UniqueKeys(entries)
      && (forall i :: 0 <= i < |entries| ==> entries[i].0 == idOf(entries[i].1) && entries[i].1 in values)
      && KeySet(entries) == added
    }

    constructor (idOf: T -> string)
      ensures Valid() && this.idOf == idOf
      ensures entries == [] && added == {} && values == {}
    {
      this.idOf := idOf;
      entries := [];
      added := {};
      values := {};
    }

    /** `get(id)`: None exactly for an id never added; otherwise an entity with that id. */
    function Get(id: string): (r: Option<T>)
      requires Valid()
      reads this
      ensures r.None? <==> id !in added
      ensures r.Some? ==> idOf(r.value) == id && r.value in values
    {
      PyDict.Get(entries, id)
    }

    /** `len()`: the number of distinct ids ever added. */
    function Len(): (n: nat)
      requires Valid()
      reads this
      ensures n == |added|
    {
      KeySetSize(entries);
      |entries|
    }

    /** `add(entity)`: registers `entity` unless its id is already taken. */
    method Add(entity: T)
      requires Valid()
      modifies this
      ensures Valid()
      ensures added == old(added) + {idOf(entity)}
      ensures idOf(entity) in old(added) ==> entries == old(entries)
      ensures idOf(entity) !in old(added) ==> entries == old(entries) + [(idOf(entity), entity)]
      ensures Get(idOf(entity)) == if idOf(entity) in old(added) then old(Get(idOf(entity))) else Some(entity)
      ensures forall id :: id != idOf(entity) ==> Get(id) == old(Get(id))
      ensures Len() == if idOf(entity) in old(added) then old(Len()) else old(Len()) + 1
      ensures values == if idOf(entity) in old(added) then old(values) else old(values) + {entity}
    {
      var id := idOf(entity);
      if !HasKey(entries, id) {
        AppendFacts(entries, id, entity);
        entries := entries + [(id, entity)];
        values := values + {entity};
      }
      added := added + {id};
      KeySetSize(entries);
    }
  }

  /** A dict grown by a key it did not hold. */
  lemma AppendFacts<T>(entries: seq<(string, T)>, id: string, entity: T)
    requires UniqueKeys(entries) && !HasKey(entries, id)
    ensures var grown := entries + [(id, entity)];
            && UniqueKeys(grown) && KeySet(grown) == KeySet(entries) + {id}
            && PyDict.Get(grown, id) == Some(entity)
            && (forall other :: other != id ==> PyDict.Get(grown, other) == PyDict.Get(entries, other))
            && (forall i :: 0 <= i < |entries| ==> grown[i] == entries[i])
            && grown[|entries|] == (id, entity)
  {
    var grown := entries + [(id, entity)];
    GetAppendNew(entries, id, entity, id);
    forall other | other != id ensures PyDict.Get(grown, other) == PyDict.Get(entries, other) {
      GetAppendNew(entries, id, entity, other);
    }
    KeySetAppend(entries, (id, entity));
    AppendUnique(entries, id, entity);
  }

  // -------------------------------------------------------------------------
  // Disciplines.

  /** `[repo.id for repo in parameter.code_repositories]`. */
  function RepositoryIds(repositories: seq<CodeRepository>): (r: seq<string>)
    ensures |r| == |repositories| && forall i :: 0 <= i < |r| ==> r[i] == repositories[i].id
  {
    seq(|repositories|, i requires 0 <= i < |repositories| => repositories[i].id)
  }

  function UsageId(u: ParameterUsage): string { u.id }

  /** `SoSDiscipline`: a model class with its input and output parameter
      usages, each side kept as an object list and its id list.  The source's
      constructor names its seventh argument `maturity` while its caller
      passes `type=`; the field here is `modelType`. */
  class SoSDiscipline {
    const id: string
    const entityLabel: Value
    const repository: CodeRepository?
    const pythonModulePath: Value
    const definition: Value
    const validated: Value
    const modelType: Value
    const icon: Value
    const documentation: Value
    const lastModificationDate: Value
    const validatedBy: Value
    const pythonClassInheritance: Value
    const pythonClass: Value
    const source: Value
    const category: Value
    const version: Value
    var inputUsages: seq<ParameterUsage>
    var inputIds: seq<string>
    var outputUsages: seq<ParameterUsage>
    var outputIds: seq<string>

    /** Each id list is the id projection of its object list, without repeats. */
    ghost predicate Valid()
      reads this
    {
      IsIdProjection(inputUsages, inputIds, UsageId) && PyList.Distinct(inputIds)
      && IsIdProjection(outputUsages, outputIds, UsageId) && PyList.Distinct(outputIds)
    }

    constructor (id: string, entityLabel: Value, repository: CodeRepository?, pythonModulePath: Value,
                 definition: Value, validated: Value, modelType: Value, icon: Value,
                 documentation: Value, lastModificationDate: Value, validatedBy: Value,
                 pythonClassInheritance: Value, pythonClass: Value, source: Value,
                 category: Value, version: Value)
      ensures Valid()
      ensures this.id == id && this.entityLabel == entityLabel && this.repository == repository
      ensures this.pythonModulePath == pythonModulePath && this.definition == definition
      ensures this.validated == validated && this.modelType == modelType && this.icon == icon
      ensures this.documentation == documentation && this.lastModificationDate == lastModificationDate
      ensures this.validatedBy == validatedBy && this.pythonClassInheritance == pythonClassInheritance
      ensures this.pythonClass == pythonClass && this.source == source
      ensures this.category == category && this.version == version
      ensures inputUsages == [] && inputIds == [] && outputUsages == [] && outputIds == []
    {
      this.id := id;
      this.entityLabel := entityLabel;
      this.repository := repository;
      this.pythonModulePath := pythonModulePath;
      this.definition := definition;
      this.validated := validated;
      this.modelType := modelType;
      this.icon := icon;
      this.documentation := documentation;
      this.lastModificationDate := lastModificationDate;
      this.validatedBy := validatedBy;
      this.pythonClassInheritance := pythonClassInheritance;
      this.pythonClass := pythonClass;
      this.source := source;
      this.category := category;
      this.version := version;
      inputUsages := [];
      inputIds := [];
      outputUsages := [];
      outputIds := [];
    }

    /** `add_input_parameter_usage`: appends a usage whose id is not yet on
        the input side; None and a known id change nothing. */
    method AddInputParameterUsage(usage: ParameterUsage?)
      requires Valid()
      modifies this`inputUsages, this`inputIds
      ensures Valid()
      ensures usage == null || usage.id in old(inputIds) ==>
        inputUsages == old(inputUsages) && inputIds == old(inputIds)
      ensures usage != null && usage.id !in old(inputIds) ==>
        inputUsages == old(inputUsages) + [usage] && inputIds == old(inputIds) + [usage.id]
    {
      var found := false;
      if usage != null {
        for k := 0 to |inputUsages|
          invariant found <==> exists j :: 0 <= j < k && inputIds[j] == usage.id
        {
          if inputUsages[k].id == usage.id {
            found := true;
          }
        }
        if !found {
          inputUsages := inputUsages + [usage];
          inputIds := inputIds + [usage.id];
        }
      }
    }

    /** `add_output_parameter_usage`: the same on the output side. */
    method AddOutputParameterUsage(usage: ParameterUsage?)
      requires Valid()
      modifies this`outputUsages, this`outputIds
      ensures Valid()
      ensures usage == null || usage.id in old(outputIds) ==>
        outputUsages == old(outputUsages) && outputIds == old(outputIds)
      ensures usage != null && usage.id !in old(outputIds) ==>
        outputUsages == old(outputUsages) + [usage] && outputIds == old(outputIds) + [usage.id]
    {
      var found := false;
      if usage != null {
        for k := 0 to |outputUsages|
          invariant found <==> exists j :: 0 <= j < k && outputIds[j] == usage.id
        {
          if outputUsages[k].id == usage.id {
            found := true;
          }
        }
        if !found {
          outputUsages := outputUsages + [usage];
          outputIds := outputIds + [usage.id];
        }
      }
    }
  }

  // -------------------------------------------------------------------------
  // Parameters.

  /** Everything about a parameter that its methods may change. */
  datatype ParameterState = ParameterState(
    entityLabel: Value,
    unit: Value,
    definition: Value,
    definitionSource: Value,
    dataType: Value,
    aclTag: Value,
    instances: seq<ParameterUsage>,
    codeRepositories: seq<CodeRepository>,
    disciplinesUsingParameterIds: seq<string>,
    codeRepositoriesAttributes: Dict<string, Dict<string, Value>>)

  /** `Parameter`: a named quantity with its ontology attributes, its usages
      and the code repositories whose glossaries describe it.

      `parameter.py` does not declare `disciplinesUsingParameterIDs`,
      `code_repositories_attributes`, `datatype_list`, `unit_list`,
      `add_disciplineUsingParameter` or `add_code_repository_attributes`,
      though other files use them.  They are declared here with the least
      behaviour those uses need: the two `add_` methods follow the
      package's dedupe-on-append and store-by-key conventions, and the two
      lists are created empty and never written. */
  class Parameter {
    const id: string
    var entityLabel: Value
    var unit: Value
    var definition: Value
    var definitionSource: Value
    var dataType: Value
    var aclTag: Value
    var instances: seq<ParameterUsage>
    var codeRepositories: seq<CodeRepository>
    var disciplinesUsingParameterIds: seq<string>
    var codeRepositoriesAttributes: Dict<string, Dict<string, Value>>
    const datatypeList: seq<Value>
    const unitList: seq<Value>

    /** No usage, repository or discipline id is recorded twice. */
    ghost predicate Valid()
      reads this
    {
      PyList.Distinct(instances) && PyList.Distinct(codeRepositories) && PyList.Distinct(disciplinesUsingParameterIds)
    }

    function State(): ParameterState
      reads this
    {
      ParameterState(entityLabel, unit, definition, definitionSource, dataType, aclTag,
                     instances, codeRepositories, disciplinesUsingParameterIds, codeRepositoriesAttributes)
    }

    /** Maps `unit`, `definition`, `definitionSource` and `ACLTag` by name and
        `type` to `dataType`; other keys are ignored, unset fields stay None. */
    constructor (id: string, entityLabel: Value, attributes: Dict<string, Value>)
      ensures Valid() && this.id == id && this.entityLabel == entityLabel
      ensures unit == Lookup(attributes, "unit")
      ensures definition == Lookup(attributes, "definition")
      ensures definitionSource == Lookup(attributes, "definitionSource")
      ensures dataType == Lookup(attributes, "type")
      ensures aclTag == Lookup(attributes, "ACLTag")
      ensures instances == [] && codeRepositories == [] && disciplinesUsingParameterIds == []
      ensures codeRepositoriesAttributes == [] && datatypeList == [] && unitList == []
    {
      var unit', definition', definitionSource', dataType', aclTag' := VNone, VNone, VNone, VNone, VNone;
      for i := 0 to |attributes|
        invariant unit' == Lookup(attributes[..i], "unit")
        invariant definition' == Lookup(attributes[..i], "definition")
        invariant definitionSource' == Lookup(attributes[..i], "definitionSource")
        invariant dataType' == Lookup(attributes[..i], "type")
        invariant aclTag' == Lookup(attributes[..i], "ACLTag")
      {
        ReadStep(attributes, i, "unit");
        ReadStep(attributes, i, "definition");
        ReadStep(attributes, i, "definitionSource");
        ReadStep(attributes, i, "type");
        ReadStep(attributes, i, "ACLTag");
        var (key, value) := attributes[i];
        unit' := Assigned(key, value, "unit", unit');
        definition' := Assigned(key, value, "definition", definition');
        definitionSource' := Assigned(key, value, "definitionSource", definitionSource');
        dataType' := Assigned(key, value, "type", dataType');
        aclTag' := Assigned(key, value, "ACLTag", aclTag');
      }
      assert attributes[..|attributes|] == attributes;
      this.id := id;
      this.entityLabel := entityLabel;
      unit, definition, definitionSource, dataType, aclTag := unit', definition', definitionSource', dataType', aclTag';
      instances := [];
      codeRepositories := [];
      disciplinesUsingParameterIds := [];
      codeRepositoriesAttributes := [];
      datatypeList := [];
      unitList := [];
    }

    /** `add_usage`: appends a usage that is not yet a member. */
    method AddUsage(usage: ParameterUsage)
      modifies this`instances
      ensures instances == PyList.AppendNew(old(instances), usage)
      ensures old(Valid()) ==> Valid()
    {
      if usage !in instances {
        instances := instances + [usage];
      }
    }

    /** `add_code_repository`: appends a repository that is not yet a member. */
    method AddCodeRepository(repository: CodeRepository)
      modifies this`codeRepositories
      ensures codeRepositories == PyList.AppendNew(old(codeRepositories), repository)
      ensures old(Valid()) ==> Valid()
    {
      if repository !in codeRepositories {
        codeRepositories := codeRepositories + [repository];
      }
    }

    /** `add_disciplineUsingParameter`: records a discipline id once. */
    method AddDisciplineUsingParameter(disciplineId: string)
      modifies this`disciplinesUsingParameterIds
      ensures disciplinesUsingParameterIds == PyList.AppendNew(old(disciplinesUsingParameterIds), disciplineId)
      ensures old(Valid()) ==> Valid()
    {
      if disciplineId !in disciplinesUsingParameterIds {
        disciplinesUsingParameterIds := disciplinesUsingParameterIds + [disciplineId];
      }
    }

    /** `add_code_repository_attributes`: the glossary row a repository gives,
        stored under the repository's id. */
    method AddCodeRepositoryAttributes(repository: CodeRepository, attributes: Dict<string, Value>)
      modifies this`codeRepositoriesAttributes
      ensures codeRepositoriesAttributes == Set(old(codeRepositoriesAttributes), repository.id, attributes)
    {
      SetUnique(codeRepositoriesAttributes, repository.id, attributes);
      codeRepositoriesAttributes := Set(codeRepositoriesAttributes, repository.id, attributes);
    }

    /** `updateOntologyAttributes`: every non-None value of `unit`,
        `definition`, `definitionSource`, `ACLTag` and `label` overwrites the
        field; `dataType` and the lists are left alone. */
    method UpdateOntologyAttributes(attributes: Dict<string, Value>)
      modifies this`unit, this`definition, this`definitionSource, this`aclTag, this`entityLabel
      ensures unit == Overridden(attributes, "unit", old(unit))
      ensures definition == Overridden(attributes, "definition", old(definition))
      ensures definitionSource == Overridden(attributes, "definitionSource", old(definitionSource))
      ensures aclTag == Overridden(attributes, "ACLTag", old(aclTag))
      ensures entityLabel == Overridden(attributes, "label", old(entityLabel))
    {
      var unit', definition', definitionSource', aclTag', entityLabel' := unit, definition, definitionSource, aclTag, entityLabel;
      for i := 0 to |attributes|
        modifies {}
        invariant unit' == Overridden(attributes[..i], "unit", unit)
        invariant definition' == Overridden(attributes[..i], "definition", definition)
        invariant definitionSource' == Overridden(attributes[..i], "definitionSource", definitionSource)
        invariant aclTag' == Overridden(attributes[..i], "ACLTag", aclTag)
        invariant entityLabel' == Overridden(attributes[..i], "label", entityLabel)
      {
        OverrideStep(attributes, i, "unit", unit);
        OverrideStep(attributes, i, "definition", definition);
        OverrideStep(attributes, i, "definitionSource", definitionSource);
        OverrideStep(attributes, i, "ACLTag", aclTag);
        OverrideStep(attributes, i, "label", entityLabel);
        var (key, value) := attributes[i];
        if value != VNone {
          unit' := Assigned(key, value, "unit", unit');
          definition' := Assigned(key, value, "definition", definition');
          definitionSource' := Assigned(key, value, "definitionSource", definitionSource');
          aclTag' := Assigned(key, value, "ACLTag", aclTag');
          entityLabel' := Assigned(key, value, "label", entityLabel');
        }
      }
      assert attributes[..|attributes|] == attributes;
      unit, definition, definitionSource, aclTag, entityLabel := unit', definition', definitionSource', aclTag', entityLabel';
    }
  }

  // -------------------------------------------------------------------------
  // Parameter usages.

  /** numpy's `array_equal(x, v)` for the string `v` that `updateAttributes`
      passes: both sides become 0-dimensional arrays, equal exactly when `x`
      is that same string. */
  predicate ArrayEqualToString(x: Value, v: Value)
    requires v.VStr?
  {
    x == v
  }

  /** `subtypeDescriptor` after `updateAttributes` has read the entries of
      `d`: an accepted value is stored only when it differs from the
      `io_type` held at that moment, which earlier entries may have changed. */
  function SubtypeAfter(d: seq<(string, Value)>, io: Value, subtype: Value): Value
    decreases |d|
  {
    if |d| == 0 then subtype
    else
      var last := d[|d| - 1];
      var before := d[..|d| - 1];
      if last.0 == "subtype_descriptor" && Accepted(last.1) && AcceptedOr(before, "io_type", io) != last.1
      then last.1
      else SubtypeAfter(before, io, subtype)
  }

  /** The seventeen descriptor fields of a parameter usage, as one value. */
  datatype UsageFields = UsageFields(
    visibility: Value,
    defaultValue: Value,
    dataframeEditionLocked: Value,
    userLevel: Value,
    possibleValues: Value,
    range: Value,
    dataframeDescriptor: Value,
    structuring: Value,
    optional: Value,
    namespace: Value,
    numerical: Value,
    coupling: Value,
    editable: Value,
    ioType: Value,
    dataType: Value,
    unit: Value,
    subtypeDescriptor: Value)

  /** The fields read from the descriptor `d`: each is `d.get(key)` for its
      key (`type` for `dataType`, `default` for `defaultValue`, ...). */
  function Descriptor(d: seq<(string, Value)>): UsageFields {
    UsageFields(
      Lookup(d, "visibility"),
      Lookup(d, "default"),
      Lookup(d, "dataframe_edition_locked"),
      Lookup(d, "user_level"),
      Lookup(d, "possible_values"),
      Lookup(d, "range"),
      Lookup(d, "dataframe_descriptor"),
      Lookup(d, "structuring"),
      Lookup(d, "optional"),
      Lookup(d, "namespace"),
      Lookup(d, "numerical"),
      Lookup(d, "coupling"),
      Lookup(d, "editable"),
      Lookup(d, "io_type"),
      Lookup(d, "type"),
      Lookup(d, "unit"),
      Lookup(d, "subtype_descriptor"))
  }

  /** One pass of the constructor's loop: the branch whose key matches takes `value`. */
  function ReadEntry(f: UsageFields, key: string, value: Value): UsageFields {
    UsageFields(
      Assigned(key, value, "visibility", f.visibility),
      Assigned(key, value, "default", f.defaultValue),
      Assigned(key, value, "dataframe_edition_locked", f.dataframeEditionLocked),
      Assigned(key, value, "user_level", f.userLevel),
      Assigned(key, value, "possible_values", f.possibleValues),
      Assigned(key, value, "range", f.range),
      Assigned(key, value, "dataframe_descriptor", f.dataframeDescriptor),
      Assigned(key, value, "structuring", f.structuring),
      Assigned(key, value, "optional", f.optional),
      Assigned(key, value, "namespace", f.namespace),
      Assigned(key, value, "numerical", f.numerical),
      Assigned(key, value, "coupling", f.coupling),
      Assigned(key, value, "editable", f.editable),
      Assigned(key, value, "io_type", f.ioType),
      Assigned(key, value, "type", f.dataType),
      Assigned(key, value, "unit", f.unit),
      Assigned(key, value, "subtype_descriptor", f.subtypeDescriptor))
  }

  /** The constructor's loop run over the entries of `d`. */
  function ReadAll(d: seq<(string, Value)>): UsageFields
    decreases |d|
  {
    if |d| == 0 then UsageFields(VNone, VNone, VNone, VNone, VNone, VNone, VNone, VNone, VNone, VNone, VNone, VNone, VNone, VNone, VNone, VNone, VNone)
    else ReadEntry(ReadAll(d[..|d| - 1]), d[|d| - 1].0, d[|d| - 1].1)
  }

  lemma {:induction false} ReadAllFields(d: seq<(string, Value)>)
    ensures ReadAll(d) == UsageFields(
      LastAssigned(d, "visibility", VNone),
      LastAssigned(d, "default", VNone),
      LastAssigned(d, "dataframe_edition_locked", VNone),
      LastAssigned(d, "user_level", VNone),
      LastAssigned(d, "possible_values", VNone),
      LastAssigned(d, "range", VNone),
      LastAssigned(d, "dataframe_descriptor", VNone),
      LastAssigned(d, "structuring", VNone),
      LastAssigned(d, "optional", VNone),
      LastAssigned(d, "namespace", VNone),
      LastAssigned(d, "numerical", VNone),
      LastAssigned(d, "coupling", VNone),
      LastAssigned(d, "editable", VNone),
      LastAssigned(d, "io_type", VNone),
      LastAssigned(d, "type", VNone),
      LastAssigned(d, "unit", VNone),
      LastAssigned(d, "subtype_descriptor", VNone))
    decreases |d|
  {
    if |d| > 0 {
      ReadAllFields(d[..|d| - 1]);
    }
  }

  /** With distinct keys the loop stores, in every field, the value of its key. */
  lemma ReadAllIsDescriptor(d: seq<(string, Value)>)
    requires UniqueKeys(d)
    ensures ReadAll(d) == Descriptor(d)
  {
    ReadAllFields(d);
    LastAssignedLooksUp(d, "visibility");
    LastAssignedLooksUp(d, "default");
    LastAssignedLooksUp(d, "dataframe_edition_locked");
    LastAssignedLooksUp(d, "user_level");
    LastAssignedLooksUp(d, "possible_values");
    LastAssignedLooksUp(d, "range");
    LastAssignedLooksUp(d, "dataframe_descriptor");
    LastAssignedLooksUp(d, "structuring");
    LastAssignedLooksUp(d, "optional");
    LastAssignedLooksUp(d, "namespace");
    LastAssignedLooksUp(d, "numerical");
    LastAssignedLooksUp(d, "coupling");
    LastAssignedLooksUp(d, "editable");
    LastAssignedLooksUp(d, "io_type");
    LastAssignedLooksUp(d, "type");
    LastAssignedLooksUp(d, "unit");
    LastAssignedLooksUp(d, "subtype_descriptor");
  }

  /** The constructor's loop over the descriptor, starting from all-None fields. */
  method ReadDescriptor(attributes: Dict<string, Value>) returns (fields: UsageFields)
    ensures fields == Descriptor(attributes)
  {
    fields := ReadAll([]);
    for i := 0 to |attributes|
      invariant fields == ReadAll(attributes[..i])
    {
      assert attributes[..i + 1][..i] == attributes[..i];
      var (key, value) := attributes[i];
      fields := ReadEntry(fields, key, value);
    }
    assert attributes[..|attributes|] == attributes;
    ReadAllIsDescriptor(attributes);
  }

  /** What `updateAttributes` does to the fields `f`: an accepted value under
      a handled key replaces the field; `possible_values` is only replaced
      by an equal value, and `subtype_descriptor` is compared with the
      `io_type` in force. */
  function AcceptedUpdate(d: seq<(string, Value)>, f: UsageFields): UsageFields {
    UsageFields(
      AcceptedOr(d, "visibility", f.visibility),
      f.defaultValue,
      AcceptedOr(d, "dataframe_edition_locked", f.dataframeEditionLocked),
      AcceptedOr(d, "user_level", f.userLevel),
      f.possibleValues,
      AcceptedOr(d, "range", f.range),
      AcceptedOr(d, "dataframe_descriptor", f.dataframeDescriptor),
      AcceptedOr(d, "structuring", f.structuring),
      AcceptedOr(d, "optional", f.optional),
      AcceptedOr(d, "namespace", f.namespace),
      AcceptedOr(d, "numerical", f.numerical),
      AcceptedOr(d, "coupling", f.coupling),
      AcceptedOr(d, "editable", f.editable),
      AcceptedOr(d, "io_type", f.ioType),
      f.dataType,
      f.unit,
      SubtypeAfter(d, f.ioType, f.subtypeDescriptor))
  }

  /** One pass of `updateAttributes`' loop.  The source also tests that the
      field differs from `value` before assigning, which leaves the result
      the same. */
  function UpdateEntry(f: UsageFields, key: string, value: Value): UsageFields {
    if !Accepted(value) then f
    else
      var io := Assigned(key, value, "io_type", f.ioType);
      UsageFields(
        Assigned(key, value, "visibility", f.visibility),
        f.defaultValue,
        Assigned(key, value, "dataframe_edition_locked", f.dataframeEditionLocked),
        Assigned(key, value, "user_level", f.userLevel),
        if key == "possible_values" && ArrayEqualToString(f.possibleValues, value) then value else f.possibleValues,
        Assigned(key, value, "range", f.range),
        Assigned(key, value, "dataframe_descriptor", f.dataframeDescriptor),
        Assigned(key, value, "structuring", f.structuring),
        Assigned(key, value, "optional", f.optional),
        Assigned(key, value, "namespace", f.namespace),
        Assigned(key, value, "numerical", f.numerical),
        Assigned(key, value, "coupling", f.coupling),
        Assigned(key, value, "editable", f.editable),
        io,
        f.dataType,
        f.unit,
        if key == "subtype_descriptor" && io != value then value else f.subtypeDescriptor)
  }

  /** `updateAttributes`' loop run over the entries of `d`, from `f`. */
  function UpdateAll(d: seq<(string, Value)>, f: UsageFields): UsageFields
    decreases |d|
  {
    if |d| == 0 then f
    else UpdateEntry(UpdateAll(d[..|d| - 1], f), d[|d| - 1].0, d[|d| - 1].1)
  }

  lemma {:induction false} UpdateAllFields(d: seq<(string, Value)>, f: UsageFields)
    ensures UpdateAll(d, f).possibleValues == f.possibleValues
    ensures UpdateAll(d, f).unit == f.unit && UpdateAll(d, f).dataType == f.dataType
    ensures UpdateAll(d, f).defaultValue == f.defaultValue
    ensures UpdateAll(d, f).visibility == LastAccepted(d, "visibility", f.visibility)
    ensures UpdateAll(d, f).dataframeEditionLocked == LastAccepted(d, "dataframe_edition_locked", f.dataframeEditionLocked)
    ensures UpdateAll(d, f).userLevel == LastAccepted(d, "user_level", f.userLevel)
    ensures UpdateAll(d, f).range == LastAccepted(d, "range", f.range)
    ensures UpdateAll(d, f).dataframeDescriptor == LastAccepted(d, "dataframe_descriptor", f.dataframeDescriptor)
    ensures UpdateAll(d, f).structuring == LastAccepted(d, "structuring", f.structuring)
    ensures UpdateAll(d, f).optional == LastAccepted(d, "optional", f.optional)
    ensures UpdateAll(d, f).namespace == LastAccepted(d, "namespace", f.namespace)
    ensures UpdateAll(d, f).numerical == LastAccepted(d, "numerical", f.numerical)
    ensures UpdateAll(d, f).coupling == LastAccepted(d, "coupling", f.coupling)
    ensures UpdateAll(d, f).editable == LastAccepted(d, "editable", f.editable)
    ensures UpdateAll(d, f).ioType == LastAccepted(d, "io_type", f.ioType)
    decreases |d|
  {
    if |d| > 0 {
      UpdateAllFields(d[..|d| - 1], f);
    }
  }

  lemma {:induction false} UpdateAllSubtype(d: seq<(string, Value)>, f: UsageFields)
    requires UniqueKeys(d)
    ensures UpdateAll(d, f).subtypeDescriptor == SubtypeAfter(d, f.ioType, f.subtypeDescriptor)
    decreases |d|
  {
    if |d| > 0 {
      var before := d[..|d| - 1];
      var last := d[|d| - 1];
      PrefixUnique(d, |d| - 1);
      UpdateAllSubtype(before, f);
      UpdateAllFields(before, f);
      LastAcceptedIsAcceptedOr(before, "io_type", f.ioType);
      var g := UpdateAll(before, f);
      assert UpdateAll(d, f) == UpdateEntry(g, last.0, last.1);
      UpdateEntrySubtype(g, last.0, last.1);
    }
  }

  lemma UpdateEntrySubtype(f: UsageFields, key: string, value: Value)
    ensures UpdateEntry(f, key, value).subtypeDescriptor ==
            if key == "subtype_descriptor" && Accepted(value) && f.ioType != value then value
            else f.subtypeDescriptor
  {
  }

  lemma PrefixUnique<K(!new), V>(d: seq<(K, V)>, n: nat)
    requires UniqueKeys(d) && n <= |d|
    ensures UniqueKeys(d[..n])
  {
    assert forall i :: 0 <= i < n ==> d[..n][i] == d[i];
  }

  /** With distinct keys the loop computes `AcceptedUpdate`. */
  lemma UpdateAllIsAcceptedUpdate(d: seq<(string, Value)>, f: UsageFields)
    requires UniqueKeys(d)
    ensures UpdateAll(d, f) == AcceptedUpdate(d, f)
  {
    UpdateAllFields(d, f);
    UpdateAllSubtype(d, f);
    LastAcceptedIsAcceptedOr(d, "visibility", f.visibility);
    LastAcceptedIsAcceptedOr(d, "dataframe_edition_locked", f.dataframeEditionLocked);
    LastAcceptedIsAcceptedOr(d, "user_level", f.userLevel);
    LastAcceptedIsAcceptedOr(d, "range", f.range);
    LastAcceptedIsAcceptedOr(d, "dataframe_descriptor", f.dataframeDescriptor);
    LastAcceptedIsAcceptedOr(d, "structuring", f.structuring);
    LastAcceptedIsAcceptedOr(d, "optional", f.optional);
    LastAcceptedIsAcceptedOr(d, "namespace", f.namespace);
    LastAcceptedIsAcceptedOr(d, "numerical", f.numerical);
    LastAcceptedIsAcceptedOr(d, "coupling", f.coupling);
    LastAcceptedIsAcceptedOr(d, "editable", f.editable);
    LastAcceptedIsAcceptedOr(d, "io_type", f.ioType);
  }

  /** `ParameterUsage`: one parameter as one discipline declares it on its
      input or output side. */
  class ParameterUsage {
    const id: string
    const entityLabel: Value
    const sosDiscipline: SoSDiscipline
    const instanceOf: Parameter
    var visibility: Value
    var defaultValue: Value
    var dataframeEditionLocked: Value
    var userLevel: Value
    var possibleValues: Value
    var range: Value
    var dataframeDescriptor: Value
    var structuring: Value
    var optional: Value
    var namespace: Value
    var numerical: Value
    var coupling: Value
    var editable: Value
    var ioType: Value
    var dataType: Value
    var unit: Value
    var subtypeDescriptor: Value

    /** The descriptor fields, as one value. */
    function Fields(): UsageFields
      reads this
    {
      UsageFields(visibility, defaultValue, dataframeEditionLocked, userLevel, possibleValues, range, dataframeDescriptor, structuring, optional, namespace, numerical, coupling, editable, ioType, dataType, unit, subtypeDescriptor)
    }

    /** Reads the descriptor keys into the fields (`type` into `dataType`,
        `default` into `defaultValue`, `user_level` into `userLevel`, ...),
        then registers itself with `parameter`. */
    constructor (id: string, entityLabel: Value, attributes: Dict<string, Value>,
                 parameter: Parameter, sosDiscipline: SoSDiscipline)
      modifies parameter`instances, parameter`disciplinesUsingParameterIds
      ensures this.id == id && this.entityLabel == entityLabel
      ensures instanceOf == parameter && this.sosDiscipline == sosDiscipline
      ensures Fields() == Descriptor(attributes)
      ensures parameter.instances == old(parameter.instances) + [this]
      ensures parameter.disciplinesUsingParameterIds ==
        PyList.AppendNew(old(parameter.disciplinesUsingParameterIds), sosDiscipline.id)
    {
      var fields := ReadDescriptor(attributes);
      this.id := id;
      this.entityLabel := entityLabel;
      this.sosDiscipline := sosDiscipline;
      instanceOf := parameter;
      new;
      AssignFields(fields);
      assert this !in old(parameter.instances);
      parameter.AddUsage(this);
      parameter.AddDisciplineUsingParameter(sosDiscipline.id);
    }

    /** Stores `fields` in the descriptor fields. */
    method AssignFields(fields: UsageFields)
      modifies this
      ensures Fields() == fields
    {
      AssignPresentation(fields);
      AssignValueFields(fields);
      AssignWiring(fields);
    }

    /** Stores the presentation fields of `fields`. */
    method AssignPresentation(fields: UsageFields)
      modifies this`visibility, this`dataframeEditionLocked, this`userLevel, this`editable, this`structuring, this`optional
      ensures visibility == fields.visibility
      ensures dataframeEditionLocked == fields.dataframeEditionLocked
      ensures userLevel == fields.userLevel
      ensures editable == fields.editable
      ensures structuring == fields.structuring
      ensures optional == fields.optional
    {
      visibility := fields.visibility;
      dataframeEditionLocked := fields.dataframeEditionLocked;
      userLevel := fields.userLevel;
      editable := fields.editable;
      structuring := fields.structuring;
      optional := fields.optional;
    }

    /** Stores the fields that describe the value of `fields`. */
    method AssignValueFields(fields: UsageFields)
      modifies this`defaultValue, this`possibleValues, this`range, this`dataType, this`unit, this`dataframeDescriptor
      ensures defaultValue == fields.defaultValue
      ensures possibleValues == fields.possibleValues
      ensures range == fields.range
      ensures dataType == fields.dataType
      ensures unit == fields.unit
      ensures dataframeDescriptor == fields.dataframeDescriptor
    {
      defaultValue := fields.defaultValue;
      possibleValues := fields.possibleValues;
      range := fields.range;
      dataType := fields.dataType;
      unit := fields.unit;
      dataframeDescriptor := fields.dataframeDescriptor;
    }

    /** Stores the fields that place the value between disciplines of `fields`. */
    method AssignWiring(fields: UsageFields)
      modifies this`namespace, this`numerical, this`coupling, this`ioType, this`subtypeDescriptor
      ensures namespace == fields.namespace
      ensures numerical == fields.numerical
      ensures coupling == fields.coupling
      ensures ioType == fields.ioType
      ensures subtypeDescriptor == fields.subtypeDescriptor
    {
      namespace := fields.namespace;
      numerical := fields.numerical;
      coupling := fields.coupling;
      ioType := fields.ioType;
      subtypeDescriptor := fields.subtypeDescriptor;
    }

    /** `updateAttributes`: accepted values overwrite the fields they name;
        `unit`, `type` and `default` have no branch. */
    method UpdateAttributes(attributes: Dict<string, Value>)
      modifies this
      ensures Fields() == AcceptedUpdate(attributes, old(Fields()))
    {
      var fields := Fields();
      ghost var start := fields;
      for i := 0 to |attributes|
        modifies {}
        invariant fields == UpdateAll(attributes[..i], start)
      {
        assert attributes[..i + 1][..i] == attributes[..i];
        var (key, value) := attributes[i];
        fields := UpdateEntry(fields, key, value);
      }
      assert attributes[..|attributes|] == attributes;
      UpdateAllIsAcceptedUpdate(attributes, start);
      AssignFields(fields);
    }
  }

  /** Without an accepted value, `updateAttributes` changes nothing. */
  lemma {:induction false} NothingAcceptedNothingChanges(d: seq<(string, Value)>, io: Value, subtype: Value)
    requires forall i :: 0 <= i < |d| ==> !Accepted(d[i].1)
    ensures SubtypeAfter(d, io, subtype) == subtype
    ensures forall key, c :: AcceptedOr(d, key, c) == c
    decreases |d|
  {
    forall key, c ensures AcceptedOr(d, key, c) == c {
      if Get(d, key).Some? {
        var i :| 0 <= i < |d| && d[i] == (key, Get(d, key).value);
      }
    }
    if |d| > 0 {
      var before := d[..|d| - 1];
      assert forall i :: 0 <= i < |before| ==> before[i] == d[i];
      NothingAcceptedNothingChanges(before, io, subtype);
    }
  }

  /** An accepted `subtype_descriptor` equal to the `io_type` in force is not stored. */
  lemma SubtypeGuardComparesIoType()
    ensures SubtypeAfter([("subtype_descriptor", VStr("in"))], VStr("in"), VNone) == VNone
    ensures SubtypeAfter([("subtype_descriptor", VStr("in"))], VNone, VNone) == VStr("in")
    ensures SubtypeAfter([("io_type", VStr("in")), ("subtype_descriptor", VStr("in"))], VNone, VNone) == VNone
    ensures SubtypeAfter([("subtype_descriptor", VStr("in")), ("io_type", VStr("in"))], VNone, VNone) == VStr("in")
  {
    var one: seq<(string, Value)> := [("subtype_descriptor", VStr("in"))];
    assert one[..0] == [];
    var ab: seq<(string, Value)> := [("io_type", VStr("in")), ("subtype_descriptor", VStr("in"))];
    assert ab[..1] == [("io_type", VStr("in"))];
    assert ab[..1][..0] == [];
    var ba: seq<(string, Value)> := [("subtype_descriptor", VStr("in")), ("io_type", VStr("in"))];
    assert ba[..1] == one;
  }

  // -------------------------------------------------------------------------
  // Processes, repositories, usecases and couplings.

  function DisciplineId(m: SoSDiscipline): string { m.id }
  function UsecaseId(u: SoSUsecase): string { u.id }
  function ProcessId(p: SoSProcess): string { p.id }
  function ProcessRepositoryId(r: SoSProcessRepository): string { r.id }
  function ParameterId(p: Parameter): string { p.id }
  function CodeRepositoryId(r: CodeRepository): string { r.id }
  function CouplingId(c: SoSCoupling): string { c.id }

  /** `SoSProcess`: a process with the models it builds and its usecases. */
  class SoSProcess {
    const id: string
    const entityLabel: Value
    const description: Value
    const repository: SoSProcessRepository?
    const documentation: Value
    const processModulePath: Value
    const category: Value
    const version: Value
    var models: seq<SoSDiscipline>
    var modelIds: seq<string>
    var usecases: seq<SoSUsecase>
    var usecaseIds: seq<string>

    ghost predicate Valid()
      reads this
    {
      PyList.Distinct(models) && IsIdProjection(models, modelIds, DisciplineId)
      && PyList.Distinct(usecases) && IsIdProjection(usecases, usecaseIds, UsecaseId)
    }

    constructor (id: string, entityLabel: Value, description: Value, repository: SoSProcessRepository?,
                 documentation: Value, processModulePath: Value, category: Value, version: Value)
      ensures Valid()
      ensures this.id == id && this.entityLabel == entityLabel && this.description == description
      ensures this.repository == repository && this.documentation == documentation
      ensures this.processModulePath == processModulePath
      ensures this.category == category && this.version == version
      ensures models == [] && modelIds == [] && usecases == [] && usecaseIds == []
    {
      this.id := id;
      this.entityLabel := entityLabel;
      this.description := description;
      this.repository := repository;
      this.documentation := documentation;
      this.processModulePath := processModulePath;
      this.category := category;
      this.version := version;
      models := [];
      modelIds := [];
      usecases := [];
      usecaseIds := [];
    }

    /** `add_model`: appends a discipline object not already listed. */
    method AddModel(model: SoSDiscipline)
      requires Valid()
      modifies this`models, this`modelIds
      ensures Valid()
      ensures models == PyList.AppendNew(old(models), model)
      ensures modelIds == if model in old(models) then old(modelIds) else old(modelIds) + [model.id]
    {
      if model !in models {
        models := models + [model];
        modelIds := modelIds + [model.id];
      }
    }

    /** `add_usecase`: appends a usecase object not already listed. */
    method AddUsecase(usecase: SoSUsecase)
      requires Valid()
      modifies this`usecases, this`usecaseIds
      ensures Valid()
      ensures usecases == PyList.AppendNew(old(usecases), usecase)
      ensures usecaseIds == if usecase in old(usecases) then old(usecaseIds) else old(usecaseIds) + [usecase.id]
    {
      if usecase !in usecases {
        usecases := usecases + [usecase];
        usecaseIds := usecaseIds + [usecase.id];
      }
    }
  }

  /** `SoSProcessRepository`: a package of processes inside a code repository. */
  class SoSProcessRepository {
    const id: string
    const entityLabel: Value
    const description: Value
    const codeRepository: CodeRepository?
    var processes: seq<SoSProcess>
    var processIds: seq<string>

    ghost predicate Valid()
      reads this
    {
      PyList.Distinct(processes) && IsIdProjection(processes, processIds, ProcessId)
    }

    constructor (id: string, entityLabel: Value, description: Value, codeRepository: CodeRepository?)
      ensures Valid()
      ensures this.id == id && this.entityLabel == entityLabel && this.description == description
      ensures this.codeRepository == codeRepository
      ensures processes == [] && processIds == []
    {
      this.id := id;
      this.entityLabel := entityLabel;
      this.description := description;
      this.codeRepository := codeRepository;
      processes := [];
      processIds := [];
    }

    /** `add_process`: appends a process object not already listed. */
    method AddProcess(process: SoSProcess)
      requires Valid()
      modifies this
      ensures Valid()
      ensures processes == PyList.AppendNew(old(processes), process)
      ensures processIds == if process in old(processes) then old(processIds) else old(processIds) + [process.id]
    {
      if process !in processes {
        processes := processes + [process];
        processIds := processIds + [process.id];
      }
    }
  }

  /** `CodeRepository`: a git repository with its traceability record. */
  class CodeRepository {
    const id: string
    const entityLabel: Value
    var processRepositories: seq<SoSProcessRepository>
    var processRepositoryIds: seq<string>
    var branch: Value
    var commit: Value
    var committedDate: Value
    var url: Value

    ghost predicate Valid()
      reads this
    {
      PyList.Distinct(processRepositories)
      && IsIdProjection(processRepositories, processRepositoryIds, ProcessRepositoryId)
    }

    constructor (id: string, entityLabel: Value)
      ensures Valid() && this.id == id && this.entityLabel == entityLabel
      ensures processRepositories == [] && processRepositoryIds == []
      ensures branch == VNone && commit == VNone && committedDate == VNone && url == VNone
    {
      this.id := id;
      this.entityLabel := entityLabel;
      processRepositories := [];
      processRepositoryIds := [];
      branch := VNone;
      commit := VNone;
      committedDate := VNone;
      url := VNone;
    }

    /** `add_process_repository`: appends a process repository not already listed. */
    method AddProcessRepository(processRepository: SoSProcessRepository)
      requires Valid()
      modifies this`processRepositories, this`processRepositoryIds
      ensures Valid()
      ensures processRepositories == PyList.AppendNew(old(processRepositories), processRepository)
      ensures processRepositoryIds ==
        if processRepository in old(processRepositories) then old(processRepositoryIds)
        else old(processRepositoryIds) + [processRepository.id]
    {
      if processRepository !in processRepositories {
        processRepositories := processRepositories + [processRepository];
        processRepositoryIds := processRepositoryIds + [processRepository.id];
      }
    }

    /** `update_info`: the four traceability fields, each read with a None default. */
    method UpdateInfo(traceability: Dict<string, Value>)
      modifies this`branch, this`commit, this`url, this`committedDate
      ensures branch == Lookup(traceability, "branch")
      ensures commit == Lookup(traceability, "commit")
      ensures url == Lookup(traceability, "url")
      ensures committedDate == Lookup(traceability, "committed_date")
    {
      branch := Lookup(traceability, "branch");
      commit := Lookup(traceability, "commit");
      url := Lookup(traceability, "url");
      committedDate := Lookup(traceability, "committed_date");
    }
  }

  /** `SoSUsecase`: a study of a process, with the disciplines it instantiates
      grouped by their local name. */
  class SoSUsecase {
    const id: string
    const entityLabel: Value
    const description: Value
    const process: SoSProcess?
    const runUsecase: Value
    var disciplinesDict: Dict<string, seq<SoSDiscipline>>

    constructor (id: string, entityLabel: Value, description: Value, process: SoSProcess?, runUsecase: Value)
      ensures this.id == id && this.entityLabel == entityLabel && this.description == description
      ensures this.process == process && this.runUsecase == runUsecase
      ensures disciplinesDict == []
    {
      this.id := id;
      this.entityLabel := entityLabel;
      this.description := description;
      this.process := process;
      this.runUsecase := runUsecase;
      disciplinesDict := [];
    }

    /** `add_disciplines`: stores the list under `localName`, replacing any earlier one. */
    method AddDisciplines(localName: string, disciplines: seq<SoSDiscipline>)
      modifies this`disciplinesDict
      ensures disciplinesDict == Set(old(disciplinesDict), localName, disciplines)
      ensures Get(disciplinesDict, localName) == Some(disciplines)
      ensures forall name :: name != localName ==> Get(disciplinesDict, name) == Get(old(disciplinesDict), name)
      ensures |disciplinesDict| == if HasKey(old(disciplinesDict), localName) then |old(disciplinesDict)| else |old(disciplinesDict)| + 1
    {
      SetUnique(disciplinesDict, localName, disciplines);
      forall name ensures Get(Set(disciplinesDict, localName, disciplines), name) ==
        if name == localName then Some(disciplines) else Get(disciplinesDict, name)
      {
        SetGet(disciplinesDict, localName, disciplines, name);
      }
      disciplinesDict := Set(disciplinesDict, localName, disciplines);
    }
  }

  /** `SoSCoupling`.  `sos_coupling.py` is not part of this model; the class
      holds what the extractor passes to its constructor and nothing more. */
  class SoSCoupling {
    const id: string
    const entityLabel: Value
    const disciplineFrom: SoSDiscipline
    const disciplineTo: SoSDiscipline
    const parameterUsageOut: ParameterUsage?
    const parameterUsageIn: ParameterUsage?
    const usecase: SoSUsecase?

    constructor (id: string, entityLabel: Value, disciplineFrom: SoSDiscipline, disciplineTo: SoSDiscipline,
                 parameterUsageOut: ParameterUsage?, parameterUsageIn: ParameterUsage?, usecase: SoSUsecase?)
      ensures this.id == id && this.entityLabel == entityLabel
      ensures this.disciplineFrom == disciplineFrom && this.disciplineTo == disciplineTo
      ensures this.parameterUsageOut == parameterUsageOut && this.parameterUsageIn == parameterUsageIn
      ensures this.usecase == usecase
    {
      this.id := id;
      this.entityLabel := entityLabel;
      this.disciplineFrom := disciplineFrom;
      this.disciplineTo := disciplineTo;
      this.parameterUsageOut := parameterUsageOut;
      this.parameterUsageIn := parameterUsageIn;
      this.usecase := usecase;
    }
  }
}
