/** What the graph builder of `sos_ontology.py` writes for each entity: the
    SoS vocabulary under `https://www.sostrades.org/ontology#`, the triples of
    every `create*Triples` builder, and the resolution of ids to the nodes
    that carry them, which decides the link triples. */
module SoSGraph {
  import opened Wrappers
  import opened PyValue
  import opened PyStr
  import opened Ontology
  import opened SoSEntities

  /** The message of the exception raised when a builder reads `.id` of a
      missing repository or process. */
  const NoneHasNoId := "'NoneType' object has no attribute 'id'"

  const BaseUri := "https://www.sostrades.org/ontology#"

  /** `self.SOS.<name>`. */
  function Sos(name: string): Term {
    IRI(BaseUri + name)
  }

  const SosId := Sos("id")
  const SosName := Sos("name")
  const SkosPrefLabel := IRI("http://www.w3.org/2004/02/skos/core#prefLabel")
  const RdfsLabel := IRI("http://www.w3.org/2000/01/rdf-schema#label")

  /** The namespaces `create_new_URI` is given, one per entity kind; the
      couplings reuse the usecases' namespace. */
  const CodeRepositoryNamespace := BaseUri + "code_repository_"
  const ProcessRepositoryNamespace := BaseUri + "sos_process_repository_"
  const DisciplineNamespace := BaseUri + "sosDiscipline_"
  const UsecaseNamespace := BaseUri + "usecase_"
  const CouplingNamespace := BaseUri + "usecase_"
  const ProcessNamespace := BaseUri + "sos_process_"
  const ParameterNamespace := BaseUri + "parameter_"
  const UsageNamespace := BaseUri + "parameterUsage_"

  /** `toLiteral(v)`. */
  function Literal(v: Value): Term {
    Lit(VStr(LiteralText(v)))
  }

  /** `Literal(id, datatype=XSD.string)`, the literal under `SOS.id`. */
  function IdLiteral(id: string): Term {
    Lit(VStr(id))
  }

  /** `toLiteral` of a string is the string's own literal. */
  lemma LiteralOfString(s: string)
    ensures Literal(VStr(s)) == IdLiteral(s)
  {
  }

  /** The count literals carry the decimal text of the count. */
  lemma LiteralOfCount(n: nat)
    ensures Literal(VInt(n)) == IdLiteral(IntToString(n))
  {
  }

  // ------------------------------------------------------------ triples per entity

  /** The six triples every builder starts with: a named individual of its
      class, its name three times (SOS.name, skos:prefLabel, rdfs:label) and
      its id. */
  function Identity(uri: Term, kind: string, name: Term, id: string): seq<Triple> {
    [Triple(uri, RdfType, OwlNamedIndividual), Triple(uri, RdfType, Sos(kind)),
     Triple(uri, SosName, name), Triple(uri, SkosPrefLabel, name), Triple(uri, RdfsLabel, name),
     Triple(uri, SosId, IdLiteral(id))]
  }

  /** One `(uri, SOS.<property>, toLiteral(value))` triple per pair. */
  function Described(uri: Term, attributes: seq<(string, Value)>): (r: seq<Triple>)
    ensures |r| == |attributes|
    ensures forall i :: 0 <= i < |r| ==> r[i] == Triple(uri, Sos(attributes[i].0), Literal(attributes[i].1))
  {
    seq(|attributes|, i requires 0 <= i < |attributes| => Triple(uri, Sos(attributes[i].0), Literal(attributes[i].1)))
  }

  /** The triples of one entity's node: its identity, then its attributes. */
  function EntityNode(uri: Term, kind: string, name: Term, id: string, attributes: seq<(string, Value)>): seq<Triple> {
    Identity(uri, kind, name, id) + Described(uri, attributes)
  }

  /** Every triple a builder writes for an entity is about the entity's node. */
  predicate AllAbout(triples: seq<Triple>, uri: Term) {
    forall t :: t in triples ==> t.s == uri
  }

  /** A node is about its uri, carries its id, has its class, and holds
      each attribute's literal. */
  lemma NodeFacts(uri: Term, kind: string, name: Term, id: string, attributes: seq<(string, Value)>)
    ensures AllAbout(EntityNode(uri, kind, name, id, attributes), uri)
    ensures Carries(TriplesOf(EntityNode(uri, kind, name, id, attributes)), uri, id)
    ensures Triple(uri, RdfType, Sos(kind)) in EntityNode(uri, kind, name, id, attributes)
  {
    var head := Identity(uri, kind, name, id);
    assert head[5] == Triple(uri, SosId, IdLiteral(id));
    assert head[1] == Triple(uri, RdfType, Sos(kind));
  }

  /** Whatever a builder appends after a node, the node's id triple is
      among the triples it adds. */
  lemma Carried(uri: Term, kind: string, name: Term, id: string, attributes: seq<(string, Value)>, rest: seq<Triple>)
    ensures Carries(TriplesOf(EntityNode(uri, kind, name, id, attributes) + rest), uri, id)
  {
    assert (EntityNode(uri, kind, name, id, attributes) + rest)[5] == Triple(uri, SosId, IdLiteral(id));
  }

  /** Adding two lists of triples adds the triples of each. */
  lemma TriplesOfAppend(a: seq<Triple>, b: seq<Triple>)
    ensures TriplesOf(a + b) == TriplesOf(a) + TriplesOf(b)
  {
  }

  /** The prefixes of a list are those of the list with one more item. */
  lemma PrefixesOfAppend<T>(s: seq<T>, x: T)
    ensures forall i :: 0 <= i <= |s| ==> (s + [x])[..i] == s[..i]
  {
  }

  /** The node holds the literal of its `i`-th attribute. */
  lemma NodeAttribute(uri: Term, kind: string, name: Term, id: string, attributes: seq<(string, Value)>, i: nat)
    requires i < |attributes|
    ensures Triple(uri, Sos(attributes[i].0), Literal(attributes[i].1)) in EntityNode(uri, kind, name, id, attributes)
  {
    var head := Identity(uri, kind, name, id);
    var tail := Described(uri, attributes);
    assert (head + tail)[6 + i] == tail[i];
  }

  /** `createCodeRepositoriesTriples`, for one repository: its id is also its name. */
  const CodeRepositoryAttributeNames: seq<string> := ["url", "commit", "committedDate", "branch", "processRepositoriesList"]

  function CodeRepositoryAttributes(c: CodeRepository): seq<(string, Value)>
    reads c
  {
    Zip(CodeRepositoryAttributeNames, [c.url, c.commit, c.committedDate, c.branch, VList(Strs(c.processRepositoryIds))])
  }

  function CodeRepositoryTriples(uri: Term, c: CodeRepository): seq<Triple>
    reads c
  {
    EntityNode(uri, "CodeRepository", IdLiteral(c.id), c.id, CodeRepositoryAttributes(c))
  }

  /** `createSoSProcessRepositoriesTriples`, for one process repository,
      without its `belongsTo` link. */
  function ProcessRepositoryAttributes(r: SoSProcessRepository): seq<(string, Value)>
    reads r
  {
    [("description", r.description), ("processList", VList(Strs(r.processIds)))]
  }

  function ProcessRepositoryTriples(uri: Term, r: SoSProcessRepository): seq<Triple>
    reads r
  {
    EntityNode(uri, "SoSProcessRepository", Literal(r.entityLabel), r.id, ProcessRepositoryAttributes(r))
  }

  /** `createSoSDisciplinesTriples`, for one discipline with a repository,
      without its links. */
  const DisciplineAttributeNames: seq<string> :=
    ["definition", "pythonClass", "classInheritance", "pythonModulePath", "inputParameterUsagesQuantity",
     "outputParameterUsagesQuantity", "inputParameterUsages", "outputParameterUsages", "documentation",
     "icon", "category", "validated", "validated_by", "type", "last_modification_date", "source",
     "codeRepository", "version"]

  /** The values written under `DisciplineAttributeNames`, in order. */
  function DisciplineValues(d: SoSDiscipline): (r: seq<Value>)
    requires d.repository != null
    reads d
    ensures |r| == |DisciplineAttributeNames|
  {
    [d.definition, d.pythonClass, d.pythonClassInheritance, d.pythonModulePath,
     VInt(|d.inputIds|), VInt(|d.outputIds|), VList(Strs(d.inputIds)), VList(Strs(d.outputIds)),
     d.documentation, d.icon, d.category, d.validated, d.validatedBy, d.modelType,
     d.lastModificationDate, d.source, VStr(d.repository.id), d.version]
  }

  function DisciplineAttributes(d: SoSDiscipline): seq<(string, Value)>
    requires d.repository != null
    reads d
  {
    Zip(DisciplineAttributeNames, DisciplineValues(d))
  }

  /** Names paired with values. */
  function Zip(names: seq<string>, values: seq<Value>): (r: seq<(string, Value)>)
    requires |names| == |values|
    ensures |r| == |names| && forall i :: 0 <= i < |r| ==> r[i] == (names[i], values[i])
  {
    seq(|names|, i requires 0 <= i < |names| => (names[i], values[i]))
  }

  function DisciplineTriples(uri: Term, d: SoSDiscipline): seq<Triple>
    requires d.repository != null
    reads d
  {
    EntityNode(uri, "SoSDiscipline", Literal(d.entityLabel), d.id, DisciplineAttributes(d))
  }

  /** `createSoSProcessTriples`, for one process with a repository, without
      its `belongsTo` link. */
  const ProcessAttributeNames: seq<string> :=
    ["description", "pythonModulePath", "disciplineList", "usecaseList", "documentation", "category", "version",
     "repository"]

  function ProcessAttributes(p: SoSProcess): seq<(string, Value)>
    requires p.repository != null
    reads p
  {
    Zip(ProcessAttributeNames,
        [p.description, p.processModulePath, VList(Strs(p.modelIds)), VList(Strs(p.usecaseIds)),
         p.documentation, p.category, p.version, VStr(p.repository.id)])
  }

  function ProcessTriples(uri: Term, p: SoSProcess): seq<Triple>
    requires p.repository != null
    reads p
  {
    EntityNode(uri, "SoSProcess", Literal(p.entityLabel), p.id, ProcessAttributes(p))
  }

  /** `createUsecasesTriples`, for one usecase, without its `implements` link. */
  function UsecaseTriples(uri: Term, u: SoSUsecase): seq<Triple> {
    EntityNode(uri, "Usecase", Literal(u.entityLabel), u.id, [("runUsecase", u.runUsecase)])
  }

  /** `createCouplingsTriples`, for one coupling, without its links. */
  function CouplingTriples(uri: Term, c: SoSCoupling): seq<Triple> {
    EntityNode(uri, "Coupling", Literal(c.entityLabel), c.id, [])
  }

  /** `createParametersAndUsagesTriples`, for one parameter. */
  const ParameterAttributeNames: seq<string> :=
    ["definition", "definitionSource", "datatype", "ACLTag", "unit", "codeRepositoryList",
     "disciplineUsingParameterList", "datatypeList", "unitList"]

  function ParameterAttributes(p: Parameter): seq<(string, Value)>
    reads p
  {
    Zip(ParameterAttributeNames,
        [p.definition, p.definitionSource, p.dataType, p.aclTag, p.unit,
         VList(Strs(RepositoryIds(p.codeRepositories))), VList(Strs(p.disciplinesUsingParameterIds)),
         VList(p.datatypeList), VList(p.unitList)])
  }

  function ParameterTriples(uri: Term, p: Parameter): seq<Triple>
    reads p
  {
    EntityNode(uri, "Parameter", Literal(p.entityLabel), p.id, ParameterAttributes(p))
  }

  /** The same, for one of its usages: the descriptor fields (neither the
      default value nor the subtype descriptor is written) and the
      `instanceOf` link to the parameter's node. */
  const UsageAttributeNames: seq<string> :=
    ["visibility", "dataframeEditionLocked", "userLevel", "possibleValues", "range", "dataframeDescriptor",
     "structuring", "optional", "namespace", "numerical", "coupling", "ioType", "editable", "datatype", "unit"]

  function UsageAttributes(f: UsageFields): seq<(string, Value)> {
    Zip(UsageAttributeNames,
        [f.visibility, f.dataframeEditionLocked, f.userLevel, f.possibleValues, f.range, f.dataframeDescriptor,
         f.structuring, f.optional, f.namespace, f.numerical, f.coupling, f.ioType, f.editable, f.dataType, f.unit])
  }

  function UsageTriples(uri: Term, u: ParameterUsage, parameterUri: Term): seq<Triple>
    reads u
  {
    EntityNode(uri, "Parameter_Usage", Literal(u.entityLabel), u.id, UsageAttributes(u.Fields()))
    + [Triple(uri, Sos("instanceOf"), parameterUri)]
  }

  /** The discipline's node is about its uri and carries its id. */
  lemma DisciplineTriplesFacts(uri: Term, d: SoSDiscipline)
    requires d.repository != null
    ensures AllAbout(DisciplineTriples(uri, d), uri)
    ensures Carries(TriplesOf(DisciplineTriples(uri, d)), uri, d.id)
  {
    NodeFacts(uri, "SoSDiscipline", Literal(d.entityLabel), d.id, DisciplineAttributes(d));
  }

  /** The discipline's two quantity literals are the decimal lengths of its
      input and output id lists. */
  lemma DisciplineQuantities(uri: Term, d: SoSDiscipline)
    requires d.repository != null
    ensures Triple(uri, Sos("inputParameterUsagesQuantity"), IdLiteral(IntToString(|d.inputIds|)))
              in DisciplineTriples(uri, d)
    ensures Triple(uri, Sos("outputParameterUsagesQuantity"), IdLiteral(IntToString(|d.outputIds|)))
              in DisciplineTriples(uri, d)
  {
    var values := DisciplineValues(d);
    ZipAttribute(uri, "SoSDiscipline", Literal(d.entityLabel), d.id, DisciplineAttributeNames, values, 4);
    ZipAttribute(uri, "SoSDiscipline", Literal(d.entityLabel), d.id, DisciplineAttributeNames, values, 5);
    LiteralOfCount(|d.inputIds|);
    LiteralOfCount(|d.outputIds|);
  }

  /** The node holds the literal of the `i`-th value under the `i`-th name. */
  lemma ZipAttribute(uri: Term, kind: string, name: Term, id: string, names: seq<string>, values: seq<Value>, i: nat)
    requires |names| == |values| && i < |names|
    ensures Triple(uri, Sos(names[i]), Literal(values[i])) in EntityNode(uri, kind, name, id, Zip(names, values))
  {
    NodeAttribute(uri, kind, name, id, Zip(names, values), i);
  }

  /** A usage's node carries its id and is an instance of its parameter's node. */
  lemma UsageTriplesFacts(uri: Term, u: ParameterUsage, parameterUri: Term)
    ensures AllAbout(UsageTriples(uri, u, parameterUri), uri)
    ensures Carries(TriplesOf(UsageTriples(uri, u, parameterUri)), uri, u.id)
    ensures Triple(uri, Sos("instanceOf"), parameterUri) in UsageTriples(uri, u, parameterUri)
  {
    var node := EntityNode(uri, "Parameter_Usage", Literal(u.entityLabel), u.id, UsageAttributes(u.Fields()));
    NodeFacts(uri, "Parameter_Usage", Literal(u.entityLabel), u.id, UsageAttributes(u.Fields()));
    assert Triple(uri, SosId, IdLiteral(u.id)) in node;
  }

  // ------------------------------------------------------------ resolving ids

  /** `s` is a node carrying `id` under SOS.id. */
  predicate Carries(g: set<Triple>, s: Term, id: string) {
    Triple(s, SosId, IdLiteral(id)) in g
  }

  /** `value(None, SOS.id, Literal(id), 'uri')` answers some node. */
  predicate Resolves(g: set<Triple>, id: string) {
    exists t :: t in g && t.p == SosId && t.o == IdLiteral(id)
  }

  /** The ids of `ids` that resolve, in order. */
  function ResolvingIds(g: set<Triple>, ids: seq<string>): (r: seq<string>)
    ensures |r| <= |ids|
  {
    if |ids| == 0 then []
    else ResolvingIds(g, ids[..|ids| - 1]) + (if Resolves(g, ids[|ids| - 1]) then [ids[|ids| - 1]] else [])
  }

  /** The nodes a lookup loop over `ids` finds: one per id that resolves, a
      node carrying that id. */
  ghost predicate Resolution(g: set<Triple>, ids: seq<string>, nodes: seq<Term>) {
    var found := ResolvingIds(g, ids);
    |nodes| == |found| && forall i :: 0 <= i < |nodes| ==> Carries(g, nodes[i], found[i])
  }

  /** Every resolving id is listed, and only those. */
  lemma {:induction false} ResolvingIdsMembers(g: set<Triple>, ids: seq<string>, id: string)
    ensures id in ResolvingIds(g, ids) <==> id in ids && Resolves(g, id)
  {
    if |ids| > 0 {
      ResolvingIdsMembers(g, ids[..|ids| - 1], id);
      assert ids == ids[..|ids| - 1] + [ids[|ids| - 1]];
    }
  }

  /** Links only for ids that resolve, and one for each of them. */
  lemma ResolutionLinks(g: set<Triple>, ids: seq<string>, nodes: seq<Term>)
    requires Resolution(g, ids, nodes)
    ensures forall x :: x in nodes ==> exists k :: 0 <= k < |ids| && Carries(g, x, ids[k])
    ensures forall k :: 0 <= k < |ids| && Resolves(g, ids[k]) ==> exists x :: x in nodes && Carries(g, x, ids[k])
  {
    var found := ResolvingIds(g, ids);
    forall x | x in nodes ensures exists k :: 0 <= k < |ids| && Carries(g, x, ids[k]) {
      var i :| 0 <= i < |nodes| && nodes[i] == x;
      ResolvingIdsMembers(g, ids, found[i]);
      var k :| 0 <= k < |ids| && ids[k] == found[i];
    }
    forall k | 0 <= k < |ids| && Resolves(g, ids[k]) ensures exists x :: x in nodes && Carries(g, x, ids[k]) {
      ResolvingIdsMembers(g, ids, ids[k]);
      var i :| 0 <= i < |found| && found[i] == ids[k];
      assert Carries(g, nodes[i], ids[k]);
    }
  }

  /** `(subject, property, node)` for each node. */
  function Links(subject: Term, property: Term, nodes: seq<Term>): (r: seq<Triple>)
    ensures |r| == |nodes|
    ensures forall i :: 0 <= i < |r| ==> r[i] == Triple(subject, property, nodes[i])
  {
    seq(|nodes|, i requires 0 <= i < |nodes| => Triple(subject, property, nodes[i]))
  }

  /** `(node, property, target)` for each node. */
  function LinksInto(nodes: seq<Term>, property: Term, target: Term): (r: seq<Triple>)
    ensures |r| == |nodes|
    ensures forall i :: 0 <= i < |r| ==> r[i] == Triple(nodes[i], property, target)
  {
    seq(|nodes|, i requires 0 <= i < |nodes| => Triple(nodes[i], property, target))
  }

  /** The ids of a sequence of usages. */
  function UsageIdsOf(usages: seq<ParameterUsage>): (r: seq<string>)
    ensures |r| == |usages| && forall i :: 0 <= i < |r| ==> r[i] == usages[i].id
  {
    seq(|usages|, i requires 0 <= i < |usages| => usages[i].id)
  }

  // ------------------------------------------------------------ what each builder writes

  const BelongsTo := Sos("belongsTo")
  const HasInput := Sos("hasInput")
  const HasOutput := Sos("hasOutput")
  const Implements := Sos("implements")
  const CouplingOut := Sos("couplingOut")
  const CouplingIn := Sos("couplingIn")
  const Represents := Sos("represents")
  const UsedIn := Sos("usedIn")
  const InstanceOf := Sos("instanceOf")

  /** One process repository, on the graph `g` it was built against: a new
      URI, its triples, and a `belongsTo` link to the code repository's node
      when that id resolves. */
  ghost predicate ProcessRepositoryBuilt(g: set<Triple>, r: SoSProcessRepository, uri: Term, written: seq<Triple>)
    requires r.codeRepository != null
    reads r
  {
    NewURI(g, ProcessRepositoryNamespace, r.id, uri)
    && exists owners :: Resolution(g, [r.codeRepository.id], owners)
                        && written == ProcessRepositoryTriples(uri, r) + Links(uri, BelongsTo, owners)
  }

  /** One discipline: its triples, the `belongsTo` link looked up twice, and
      a `hasInput` (`hasOutput`) link for each input (output) usage whose id
      resolves, the lookups being skipped when the id list is empty. */
  ghost predicate DisciplineBuilt(g: set<Triple>, d: SoSDiscipline, uri: Term, written: seq<Triple>)
    requires d.repository != null
    reads d
  {
    NewURI(g, DisciplineNamespace, d.id, uri)
    && exists owners, again, inputs, outputs ::
         DisciplineLookups(g, d, owners, again, inputs, outputs)
         && written == DisciplineTriples(uri, d) + DisciplineLinks(uri, owners, again, inputs, outputs)
  }

  /** What the lookups of one discipline's builder answer, on `g`. */
  ghost predicate DisciplineLookups(g: set<Triple>, d: SoSDiscipline, owners: seq<Term>, again: seq<Term>,
                                    inputs: seq<Term>, outputs: seq<Term>)
    requires d.repository != null
    reads d
  {
    Resolution(g, [d.repository.id], owners) && Resolution(g, [d.repository.id], again)
    && (if |d.inputIds| > 0 then Resolution(g, UsageIdsOf(d.inputUsages), inputs) else inputs == [])
    && (if |d.outputIds| > 0 then Resolution(g, UsageIdsOf(d.outputUsages), outputs) else outputs == [])
  }

  /** A discipline built from its lookups, and its node carries its id. */
  lemma DisciplineBuiltIntro(g: set<Triple>, d: SoSDiscipline, uri: Term, owners: seq<Term>, again: seq<Term>,
                             inputs: seq<Term>, outputs: seq<Term>)
    requires d.repository != null
    requires NewURI(g, DisciplineNamespace, d.id, uri) && DisciplineLookups(g, d, owners, again, inputs, outputs)
    ensures DisciplineBuilt(g, d, uri, DisciplineTriples(uri, d) + DisciplineLinks(uri, owners, again, inputs, outputs))
    ensures Carries(TriplesOf(DisciplineTriples(uri, d) + DisciplineLinks(uri, owners, again, inputs, outputs)), uri, d.id)
  {
    assert (DisciplineTriples(uri, d) + DisciplineLinks(uri, owners, again, inputs, outputs))[5]
        == Triple(uri, SosId, IdLiteral(d.id));
  }

  /** The link triples of one discipline, in the order they are appended. */
  function DisciplineLinks(uri: Term, owners: seq<Term>, again: seq<Term>, inputs: seq<Term>, outputs: seq<Term>)
    : seq<Triple>
  {
    Links(uri, BelongsTo, owners) + Links(uri, BelongsTo, again) + Links(uri, HasInput, inputs) + Links(uri, HasOutput, outputs)
  }

  /** One process: its triples and a `belongsTo` link to its process
      repository's node. */
  ghost predicate ProcessBuilt(g: set<Triple>, p: SoSProcess, uri: Term, written: seq<Triple>)
    requires p.repository != null
    reads p
  {
    NewURI(g, ProcessNamespace, p.id, uri)
    && exists owners :: Resolution(g, [p.repository.id], owners)
                        && written == ProcessTriples(uri, p) + Links(uri, BelongsTo, owners)
  }

  /** One usecase: its triples and an `implements` link to its process's node. */
  ghost predicate UsecaseBuilt(g: set<Triple>, u: SoSUsecase, uri: Term, written: seq<Triple>)
    requires u.process != null
  {
    NewURI(g, UsecaseNamespace, u.id, uri)
    && exists processes :: Resolution(g, [u.process.id], processes)
                           && written == UsecaseTriples(uri, u) + Links(uri, Implements, processes)
  }

  /** One coupling: its triples, `couplingOut`/`couplingIn` only when both
      disciplines resolve, then a `represents` link for the input usage and
      one for the output usage, each when given and resolving. */
  ghost predicate CouplingBuilt(g: set<Triple>, c: SoSCoupling, uri: Term, written: seq<Triple>) {
    NewURI(g, CouplingNamespace, c.id, uri)
    && exists from, to, ins, outs ::
         CouplingLookups(g, c, from, to, ins, outs) && written == CouplingWritten(uri, c, from, to, ins, outs)
  }

  /** What the lookups of one coupling's builder answer, on `g`. */
  ghost predicate CouplingLookups(g: set<Triple>, c: SoSCoupling, from: seq<Term>, to: seq<Term>,
                                  ins: seq<Term>, outs: seq<Term>)
  {
    Resolution(g, [c.disciplineFrom.id], from) && Resolution(g, [c.disciplineTo.id], to)
    && (if c.parameterUsageIn == null then ins == [] else Resolution(g, [c.parameterUsageIn.id], ins))
    && (if c.parameterUsageOut == null then outs == [] else Resolution(g, [c.parameterUsageOut.id], outs))
  }

  /** The triples of one coupling, in the order they are added. */
  function CouplingWritten(uri: Term, c: SoSCoupling, from: seq<Term>, to: seq<Term>, ins: seq<Term>, outs: seq<Term>)
    : seq<Triple>
  {
    CouplingTriples(uri, c)
    + (if |from| == 1 && |to| == 1 then [Triple(uri, CouplingOut, from[0]), Triple(uri, CouplingIn, to[0])] else [])
    + Links(uri, Represents, ins) + Links(uri, Represents, outs)
  }

  /** A coupling built from its lookups, and its node carries its id. */
  lemma CouplingBuiltIntro(g: set<Triple>, c: SoSCoupling, uri: Term, from: seq<Term>, to: seq<Term>,
                           ins: seq<Term>, outs: seq<Term>)
    requires NewURI(g, CouplingNamespace, c.id, uri) && CouplingLookups(g, c, from, to, ins, outs)
    ensures CouplingBuilt(g, c, uri, CouplingWritten(uri, c, from, to, ins, outs))
    ensures Carries(TriplesOf(CouplingWritten(uri, c, from, to, ins, outs)), uri, c.id)
  {
    assert CouplingWritten(uri, c, from, to, ins, outs)[5] == Triple(uri, SosId, IdLiteral(c.id));
  }

  /** The `usedIn` links of one process: none when the process does not
      resolve, else one from each resolving discipline id of its model list. */
  ghost predicate ProcessLinksBuilt(g: set<Triple>, p: SoSProcess, written: seq<Triple>)
    reads p
  {
    exists processes, disciplines ::
      Resolution(g, [p.id], processes)
      && (processes == [] ==> written == [])
      && (|processes| == 1 ==>
            Resolution(g, p.modelIds, disciplines) && written == LinksInto(disciplines, UsedIn, processes[0]))
  }

  /** The witnesses of `ProcessLinksBuilt`: the lookups the loop made. */
  lemma ProcessLinksBuiltIntro(g: set<Triple>, p: SoSProcess, processes: seq<Term>, disciplines: seq<Term>,
                               written: seq<Triple>)
    requires Resolution(g, [p.id], processes) && (processes == [] ==> written == [])
    requires |processes| == 1 ==>
               Resolution(g, p.modelIds, disciplines) && written == LinksInto(disciplines, UsedIn, processes[0])
    ensures ProcessLinksBuilt(g, p, written)
  {
    if processes == [] {
      // any list of nodes serves as the second witness; this names one
      var none: seq<Term> := [];
      assert Resolution(g, p.modelIds, none) || !Resolution(g, p.modelIds, none);
    } else {
      assert |ResolvingIds(g, [p.id])| <= 1;
      assert |processes| == 1;
    }
  }

  /** One parameter: its triples are added first, then its usages in a
      run of steps, each usage getting a URI new on the graph as it then is. */
  ghost predicate ParameterBuilt(g: set<Triple>, p: Parameter, uri: Term, usageUris: seq<Term>, written: seq<Triple>)
    reads p, p.instances
  {
    NewURI(g, ParameterNamespace, p.id, uri)
    && exists stages, log ::
         UsageRun(g + TriplesOf(ParameterTriples(uri, p)), p.instances, usageUris, uri, stages, log)
         && written == ParameterTriples(uri, p) + Concat(log)
  }

  /** The usage steps of one parameter, starting from the graph `g`. */
  ghost predicate UsageRun(g: set<Triple>, usages: seq<ParameterUsage>, uris: seq<Term>, parameterUri: Term,
                           stages: seq<set<Triple>>, log: seq<seq<Triple>>)
    reads usages
  {
    Chain(stages, log) && stages[0] == g && |log| == |uris| == |usages|
    && FreshUsages(stages, usages, uris) && UsagesLogged(log, usages, uris, parameterUri)
  }

  /** Each usage's URI is new on the graph of its step. */
  ghost predicate FreshUsages(stages: seq<set<Triple>>, usages: seq<ParameterUsage>, uris: seq<Term>) {
    |usages| == |uris| < |stages|
    && forall i :: 0 <= i < |uris| ==> NewURI(stages[i], UsageNamespace, usages[i].id, uris[i])
  }

  /** Each step of the run writes its usage's triples. */
  ghost predicate UsagesLogged(log: seq<seq<Triple>>, usages: seq<ParameterUsage>, uris: seq<Term>, parameterUri: Term)
    reads usages
  {
    |log| == |usages| == |uris|
    && forall i {:trigger UsageTriples(uris[i], usages[i], parameterUri)} :: 0 <= i < |log| ==>
         log[i] == UsageTriples(uris[i], usages[i], parameterUri)
  }

  lemma FreshUsagesStep(stages: seq<set<Triple>>, usages: seq<ParameterUsage>, uris: seq<Term>,
                        g: set<Triple>, u: ParameterUsage, uri: Term)
    requires FreshUsages(stages, usages, uris) && |stages| == |uris| + 1
    requires NewURI(stages[|uris|], UsageNamespace, u.id, uri)
    ensures FreshUsages(stages + [g], usages + [u], uris + [uri])
  {
    var n := |uris|;
    forall i | 0 <= i < n + 1
      ensures NewURI((stages + [g])[i], UsageNamespace, (usages + [u])[i].id, (uris + [uri])[i])
    {
      assert (stages + [g])[i] == stages[i];
    }
  }

  lemma UsagesLoggedStep(log: seq<seq<Triple>>, usages: seq<ParameterUsage>, uris: seq<Term>, parameterUri: Term,
                         u: ParameterUsage, uri: Term)
    requires UsagesLogged(log, usages, uris, parameterUri)
    ensures UsagesLogged(log + [UsageTriples(uri, u, parameterUri)], usages + [u], uris + [uri], parameterUri)
  {
  }

  /** The lists of a run, one after the other. */
  function Concat(log: seq<seq<Triple>>): seq<Triple> {
    if |log| == 0 then [] else Concat(log[..|log| - 1]) + log[|log| - 1]
  }

  lemma ConcatAppend(log: seq<seq<Triple>>, x: seq<Triple>)
    ensures Concat(log + [x]) == Concat(log) + x
  {
    assert (log + [x])[..|log|] == log;
  }

  /** Each usage's node carries the usage's id in `g`. */
  ghost predicate CarriesUsages(g: set<Triple>, uris: seq<Term>, usages: seq<ParameterUsage>) {
    |uris| == |usages| && forall i :: 0 <= i < |uris| ==> Carries(g, uris[i], usages[i].id)
  }

  lemma CarriesUsagesStep(g: set<Triple>, h: set<Triple>, uris: seq<Term>, usages: seq<ParameterUsage>,
                          uri: Term, u: ParameterUsage)
    requires CarriesUsages(g, uris, usages) && g <= h && Carries(h, uri, u.id)
    ensures CarriesUsages(h, uris + [uri], usages + [u])
  {
  }

  /** The state of a parameter's usage loop after the usages `usages`: the
      run so far, the triples written, the graph reached, and the ids carried. */
  ghost predicate UsagesSoFar(g: set<Triple>, usages: seq<ParameterUsage>, uris: seq<Term>, parameterUri: Term,
                              stages: seq<set<Triple>>, log: seq<seq<Triple>>, tail: seq<Triple>, graph: set<Triple>)
    reads usages
  {
    UsageRun(g, usages, uris, parameterUri, stages, log) && tail == Concat(log) && stages[|log|] == graph
    && CarriesUsages(graph, uris, usages)
  }

  /** One usage built on `graph`: a new URI, its triples, and the graph
      `next` they lead to. */
  ghost predicate UsageStep(graph: set<Triple>, u: ParameterUsage, uri: Term, triples: seq<Triple>, parameterUri: Term,
                            next: set<Triple>)
    reads u
  {
    NewURI(graph, UsageNamespace, u.id, uri) && triples == UsageTriples(uri, u, parameterUri)
    && next == graph + TriplesOf(triples) && Carries(next, uri, u.id)
  }

  lemma UsageStepIntro(graph: set<Triple>, u: ParameterUsage, uri: Term, parameterUri: Term)
    requires NewURI(graph, UsageNamespace, u.id, uri)
    ensures UsageStep(graph, u, uri, UsageTriples(uri, u, parameterUri), parameterUri,
                      graph + TriplesOf(UsageTriples(uri, u, parameterUri)))
  {
    UsageTriplesFacts(uri, u, parameterUri);
  }

  /** One more usage built on the graph reached keeps the loop's state. */
  lemma UsagesSoFarStep(g: set<Triple>, usages: seq<ParameterUsage>, uris: seq<Term>, parameterUri: Term,
                        stages: seq<set<Triple>>, log: seq<seq<Triple>>, tail: seq<Triple>, graph: set<Triple>,
                        u: ParameterUsage, uri: Term, triples: seq<Triple>, next: set<Triple>)
    requires UsagesSoFar(g, usages, uris, parameterUri, stages, log, tail, graph)
    requires UsageStep(graph, u, uri, triples, parameterUri, next)
    ensures UsagesSoFar(g, usages + [u], uris + [uri], parameterUri, stages + [next], log + [triples], tail + triples, next)
  {
    FreshUsagesStep(stages, usages, uris, next, u, uri);
    UsagesLoggedStep(log, usages, uris, parameterUri, u, uri);
    CarriesUsagesStep(graph, next, uris, usages, uri, u);
    ConcatAppend(log, triples);
  }

  /** A parameter whose usage loop ran from the graph holding its own
      triples is built, and the graph reached holds all it wrote. */
  lemma ParameterBuiltIntro(g: set<Triple>, p: Parameter, uri: Term, usageUris: seq<Term>, stages: seq<set<Triple>>,
                            log: seq<seq<Triple>>, tail: seq<Triple>, graph: set<Triple>)
    requires NewURI(g, ParameterNamespace, p.id, uri)
    requires UsagesSoFar(g + TriplesOf(ParameterTriples(uri, p)), p.instances, usageUris, uri, stages, log, tail, graph)
    ensures ParameterBuilt(g, p, uri, usageUris, ParameterTriples(uri, p) + tail)
    ensures graph == g + TriplesOf(ParameterTriples(uri, p) + tail)
  {
    ChainConcat(stages, log);
    TriplesOfAppend(ParameterTriples(uri, p), tail);
  }

  /** Taking one more item of a list. */
  lemma TakeOneMore<T>(s: seq<T>, j: nat)
    requires j < |s|
    ensures s[..j] + [s[j]] == s[..j + 1]
  {
  }

  /** A run adds the triples of all its lists. */
  lemma {:induction false} ChainConcat(stages: seq<set<Triple>>, log: seq<seq<Triple>>)
    requires Chain(stages, log)
    ensures stages[|log|] == stages[0] + TriplesOf(Concat(log))
  {
    if |log| > 0 {
      var n := |log| - 1;
      ChainConcat(stages[..n + 1], log[..n]);
      TriplesOfAppend(Concat(log[..n]), log[n]);
    }
  }

  /** A run of builder steps: `stages[k]` is the graph before step `k`, and
      each step adds the triples it wrote. */
  ghost predicate Chain(stages: seq<set<Triple>>, log: seq<seq<Triple>>) {
    |stages| == |log| + 1 && forall k :: 0 <= k < |log| ==> stages[k + 1] == stages[k] + TriplesOf(log[k])
  }

  /** A run only ever adds triples. */
  lemma {:induction false} ChainGrows(stages: seq<set<Triple>>, log: seq<seq<Triple>>, i: nat, j: nat)
    requires Chain(stages, log) && i <= j <= |log|
    ensures stages[i] <= stages[j]
  {
    if i < j {
      ChainGrows(stages, log, i, j - 1);
    }
  }

  /** After a step, the entity it built is found by its id. */
  lemma StepResolves(stages: seq<set<Triple>>, log: seq<seq<Triple>>, k: nat, uri: Term, id: string)
    requires Chain(stages, log) && k < |log|
    requires Carries(TriplesOf(log[k]), uri, id)
    ensures Resolves(stages[|log|], id)
  {
    ChainGrows(stages, log, k + 1, |log|);
    assert Triple(uri, SosId, IdLiteral(id)) in stages[|log|];
  }

  /** The nodes a discipline's triples are about, and the links: a
      `hasInput` target carries the id of one of its input usages, and every
      input usage whose id resolves has one.  The same holds for outputs. */
  lemma DisciplineInputLinks(g: set<Triple>, d: SoSDiscipline, uri: Term, written: seq<Triple>)
    requires d.repository != null && DisciplineBuilt(g, d, uri, written)
    ensures forall x :: Triple(uri, HasInput, x) in written ==>
              exists k :: 0 <= k < |d.inputUsages| && Carries(g, x, d.inputUsages[k].id)
    ensures |d.inputIds| > 0 ==> forall k :: 0 <= k < |d.inputUsages| && Resolves(g, d.inputUsages[k].id) ==>
              exists x :: Triple(uri, HasInput, x) in written && Carries(g, x, d.inputUsages[k].id)
    ensures forall x :: Triple(uri, HasOutput, x) in written ==>
              exists k :: 0 <= k < |d.outputUsages| && Carries(g, x, d.outputUsages[k].id)
    ensures |d.outputIds| > 0 ==> forall k :: 0 <= k < |d.outputUsages| && Resolves(g, d.outputUsages[k].id) ==>
              exists x :: Triple(uri, HasOutput, x) in written && Carries(g, x, d.outputUsages[k].id)
  {
    var owners, again, inputs, outputs :|
      DisciplineLookups(g, d, owners, again, inputs, outputs)
      && written == DisciplineTriples(uri, d) + DisciplineLinks(uri, owners, again, inputs, outputs);
    DisciplineNodePredicates(uri, d);
    WrittenLinks(g, uri, DisciplineTriples(uri, d), owners, again, inputs, outputs,
                 d.inputUsages, d.outputUsages, |d.inputIds| > 0, |d.outputIds| > 0);
  }

  /** The same, over any node triples that use neither link predicate. */
  lemma WrittenLinks(g: set<Triple>, uri: Term, node: seq<Triple>, owners: seq<Term>, again: seq<Term>,
                     inputs: seq<Term>, outputs: seq<Term>, ins: seq<ParameterUsage>, outs: seq<ParameterUsage>,
                     activeIn: bool, activeOut: bool)
    requires forall t :: t in node ==> t.p != HasInput && t.p != HasOutput
    requires if activeIn then Resolution(g, UsageIdsOf(ins), inputs) else inputs == []
    requires if activeOut then Resolution(g, UsageIdsOf(outs), outputs) else outputs == []
    ensures var written := node + DisciplineLinks(uri, owners, again, inputs, outputs);
            && (forall x :: Triple(uri, HasInput, x) in written ==> exists k :: 0 <= k < |ins| && Carries(g, x, ins[k].id))
            && (activeIn ==> forall k :: 0 <= k < |ins| && Resolves(g, ins[k].id) ==>
                  exists x :: Triple(uri, HasInput, x) in written && Carries(g, x, ins[k].id))
            && (forall x :: Triple(uri, HasOutput, x) in written ==> exists k :: 0 <= k < |outs| && Carries(g, x, outs[k].id))
            && (activeOut ==> forall k :: 0 <= k < |outs| && Resolves(g, outs[k].id) ==>
                  exists x :: Triple(uri, HasOutput, x) in written && Carries(g, x, outs[k].id))
  {
    var written := node + DisciplineLinks(uri, owners, again, inputs, outputs);
    assert written == node + Links(uri, BelongsTo, owners) + Links(uri, BelongsTo, again)
                      + Links(uri, HasInput, inputs) + Links(uri, HasOutput, outputs);
    var head := node + Links(uri, BelongsTo, owners) + Links(uri, BelongsTo, again);
    assert HasInput != BelongsTo && HasOutput != BelongsTo && HasInput != HasOutput by {
      NamesDiffer("hasInput", "belongsTo");
      NamesDiffer("hasOutput", "belongsTo");
      NamesDiffer("hasInput", "hasOutput");
    }
    LinkSide(g, uri, HasInput, written, head, inputs, Links(uri, HasOutput, outputs), ins, activeIn);
    LinkSide(g, uri, HasOutput, written, head + Links(uri, HasInput, inputs), outputs, [], outs, activeOut);
  }

  /** The links of one predicate inside a builder's list: each target
      carries the id of one of the usages, and, when the lookups ran, every
      usage whose id resolves has one. */
  lemma LinkSide(g: set<Triple>, uri: Term, property: Term, written: seq<Triple>, head: seq<Triple>,
                 nodes: seq<Term>, tail: seq<Triple>, usages: seq<ParameterUsage>, active: bool)
    requires written == head + Links(uri, property, nodes) + tail
    requires forall t :: t in head ==> t.p != property
    requires forall t :: t in tail ==> t.p != property
    requires active ==> Resolution(g, UsageIdsOf(usages), nodes)
    requires !active ==> nodes == []
    ensures forall x :: Triple(uri, property, x) in written ==>
              exists k :: 0 <= k < |usages| && Carries(g, x, usages[k].id)
    ensures active ==> forall k :: 0 <= k < |usages| && Resolves(g, usages[k].id) ==>
              exists x :: Triple(uri, property, x) in written && Carries(g, x, usages[k].id)
  {
    var links := Links(uri, property, nodes);
    forall x | Triple(uri, property, x) in written
      ensures x in nodes
    {
      assert Triple(uri, property, x) in links;
      var i :| 0 <= i < |links| && links[i] == Triple(uri, property, x);
    }
    if active {
      UsageLinks(g, usages, nodes);
      forall x | x in nodes ensures Triple(uri, property, x) in written {
        var i :| 0 <= i < |nodes| && nodes[i] == x;
        assert links[i] == Triple(uri, property, x);
      }
    }
  }

  /** A discipline's own triples use neither link predicate. */
  lemma DisciplineNodePredicates(uri: Term, d: SoSDiscipline)
    requires d.repository != null
    ensures forall t :: t in DisciplineTriples(uri, d) ==> t.p != HasInput && t.p != HasOutput
  {
    var head := Identity(uri, "SoSDiscipline", Literal(d.entityLabel), d.id);
    var tail := Described(uri, DisciplineAttributes(d));
    IdentityPredicates(uri, "SoSDiscipline", Literal(d.entityLabel), d.id);
    LinkPredicatesAreNoIdentity();
    DisciplineNamesAvoidLinks();
    ZipNames(DisciplineAttributeNames, DisciplineValues(d), "hasInput");
    ZipNames(DisciplineAttributeNames, DisciplineValues(d), "hasOutput");
    DescribedPredicates(uri, DisciplineAttributes(d), "hasInput");
    DescribedPredicates(uri, DisciplineAttributes(d), "hasOutput");
    assert DisciplineTriples(uri, d) == head + tail;
  }

  /** The predicates of the identity triples. */
  const IdentityProperties: set<Term> := {RdfType, SosName, SkosPrefLabel, RdfsLabel, SosId}

  lemma IdentityPredicates(uri: Term, kind: string, name: Term, id: string)
    ensures forall t :: t in Identity(uri, kind, name, id) ==> t.p in IdentityProperties
  {
  }

  lemma LinkPredicatesAreNoIdentity()
    ensures HasInput !in IdentityProperties && HasOutput !in IdentityProperties
  {
    NamesDiffer("hasInput", "id");
    NamesDiffer("hasInput", "name");
    NamesDiffer("hasOutput", "id");
    NamesDiffer("hasOutput", "name");
  }

  lemma DisciplineNamesAvoidLinks()
    ensures "hasInput" !in DisciplineAttributeNames && "hasOutput" !in DisciplineAttributeNames
  {
  }

  lemma ZipNames(names: seq<string>, values: seq<Value>, name: string)
    requires |names| == |values| && name !in names
    ensures forall i :: 0 <= i < |names| ==> Zip(names, values)[i].0 != name
  {
  }

  /** A node whose attribute names avoid `name` writes no `SOS.<name>` triple. */
  lemma DescribedPredicates(uri: Term, attributes: seq<(string, Value)>, name: string)
    requires forall i :: 0 <= i < |attributes| ==> attributes[i].0 != name
    ensures forall t :: t in Described(uri, attributes) ==> t.p != Sos(name)
  {
    forall t | t in Described(uri, attributes) ensures t.p != Sos(name) {
      var i :| 0 <= i < |attributes| && Described(uri, attributes)[i] == t;
      NamesDiffer(attributes[i].0, name);
    }
  }

  lemma NamesDiffer(a: string, b: string)
    requires a != b
    ensures BaseUri + a != BaseUri + b
  {
    assert a == (BaseUri + a)[|BaseUri|..];
    assert b == (BaseUri + b)[|BaseUri|..];
  }

  /** The nodes resolved for a list of usages, read back per usage. */
  lemma UsageLinks(g: set<Triple>, usages: seq<ParameterUsage>, nodes: seq<Term>)
    requires Resolution(g, UsageIdsOf(usages), nodes)
    ensures forall x :: x in nodes ==> exists k :: 0 <= k < |usages| && Carries(g, x, usages[k].id)
    ensures forall k :: 0 <= k < |usages| && Resolves(g, usages[k].id) ==> exists x :: x in nodes && Carries(g, x, usages[k].id)
  {
    var ids := UsageIdsOf(usages);
    var found := ResolvingIds(g, ids);
    forall x | x in nodes ensures exists k :: 0 <= k < |usages| && Carries(g, x, usages[k].id) {
      var i :| 0 <= i < |nodes| && nodes[i] == x;
      ResolvingIdsMembers(g, ids, found[i]);
      var k :| 0 <= k < |ids| && ids[k] == found[i];
      assert Carries(g, x, usages[k].id);
    }
    forall k | 0 <= k < |usages| && Resolves(g, usages[k].id)
      ensures exists x :: x in nodes && Carries(g, x, usages[k].id)
    {
      ResolvingIdsMembers(g, ids, ids[k]);
      var i :| 0 <= i < |found| && found[i] == ids[k];
      assert nodes[i] in nodes && Carries(g, nodes[i], usages[k].id);
    }
  }

  // ------------------------------------------------------------ runs of the builder loops

  /** One code repository: a new URI and its triples. */
  ghost predicate CodeRepositoryBuilt(g: set<Triple>, c: CodeRepository, uri: Term, written: seq<Triple>)
    reads c
  {
    NewURI(g, CodeRepositoryNamespace, c.id, uri) && written == CodeRepositoryTriples(uri, c)
  }

  /** The ids of `xs`, in order. */
  function IdsOf<T>(xs: seq<T>, idOf: T -> string): (r: seq<string>)
    ensures |r| == |xs| && forall i :: 0 <= i < |r| ==> r[i] == idOf(xs[i])
  {
    seq(|xs|, i requires 0 <= i < |xs| => idOf(xs[i]))
  }

  lemma IdsOfAppend<T>(xs: seq<T>, x: T, idOf: T -> string)
    ensures IdsOf(xs + [x], idOf) == IdsOf(xs, idOf) + [idOf(x)]
  {
  }

  /** Every id of `ids` is found on `g`. */
  ghost predicate AllResolve(g: set<Triple>, ids: seq<string>) {
    forall k :: 0 <= k < |ids| ==> Resolves(g, ids[k])
  }

  /** Triples once found stay found as the graph grows. */
  lemma AllResolveGrow(g: set<Triple>, h: set<Triple>, ids: seq<string>)
    requires AllResolve(g, ids) && g <= h
    ensures AllResolve(h, ids)
  {
    forall k | 0 <= k < |ids| ensures Resolves(h, ids[k]) {
      var t :| t in g && t.p == SosId && t.o == IdLiteral(ids[k]);
      assert t in h;
    }
  }

  /** A usage loop leaves every usage found by its id. */
  lemma CarriesUsagesResolve(g: set<Triple>, uris: seq<Term>, usages: seq<ParameterUsage>)
    requires CarriesUsages(g, uris, usages)
    ensures AllResolve(g, UsageIdsOf(usages))
  {
    forall k | 0 <= k < |usages| ensures Resolves(g, UsageIdsOf(usages)[k]) {
      assert Triple(uris[k], SosId, IdLiteral(usages[k].id)) in g;
    }
  }

  /** A builder loop after the entities with ids `ids`: one step each,
      starting from `g` and reaching `graph`, every step adding the triples it
      wrote, and every entity found by its id on `graph`. */
  ghost predicate RunSoFar(g: set<Triple>, ids: seq<string>, stages: seq<set<Triple>>, log: seq<seq<Triple>>,
                           graph: set<Triple>)
  {
    Chain(stages, log) && stages[0] == g && |log| == |ids| && stages[|log|] == graph && AllResolve(graph, ids)
  }

  /** One more step whose node carries its id. */
  lemma RunSoFarStep(g: set<Triple>, ids: seq<string>, stages: seq<set<Triple>>, log: seq<seq<Triple>>,
                     graph: set<Triple>, id: string, uri: Term, written: seq<Triple>, next: set<Triple>)
    requires RunSoFar(g, ids, stages, log, graph)
    requires next == graph + TriplesOf(written) && Carries(next, uri, id)
    ensures RunSoFar(g, ids + [id], stages + [next], log + [written], next)
  {
    AllResolveGrow(graph, next, ids);
    assert Resolves(next, id) by {
      assert Triple(uri, SosId, IdLiteral(id)) in next;
    }
  }

  /** A loop only ever adds triples. */
  lemma RunSoFarGrows(g: set<Triple>, ids: seq<string>, stages: seq<set<Triple>>, log: seq<seq<Triple>>,
                      graph: set<Triple>)
    requires RunSoFar(g, ids, stages, log, graph)
    ensures g <= graph
  {
    ChainGrows(stages, log, 0, |log|);
  }

  /** Step `k` of a loop built `items[k]` on the graph `stages[k]`. */
  ghost predicate CodeRepositoriesBuilt(items: seq<CodeRepository>, uris: seq<Term>, stages: seq<set<Triple>>,
                                        log: seq<seq<Triple>>)
    reads items
  {
    |uris| == |items| <= |log| < |stages|
    && forall k {:trigger CodeRepositoryBuilt(stages[k], items[k], uris[k], log[k])} :: 0 <= k < |items| ==>
         CodeRepositoryBuilt(stages[k], items[k], uris[k], log[k])
  }

  lemma CodeRepositoriesStep(items: seq<CodeRepository>, uris: seq<Term>, stages: seq<set<Triple>>,
                             log: seq<seq<Triple>>, c: CodeRepository, uri: Term, written: seq<Triple>, next: set<Triple>)
    requires CodeRepositoriesBuilt(items, uris, stages, log) && |log| == |items|
    requires CodeRepositoryBuilt(stages[|items|], c, uri, written)
    ensures CodeRepositoriesBuilt(items + [c], uris + [uri], stages + [next], log + [written])
  {
  }

  /** The state of `createCodeRepositoriesTriples` after the repositories `items`. */
  ghost predicate CodeRepositoriesSoFar(g: set<Triple>, items: seq<CodeRepository>, uris: seq<Term>,
                                        stages: seq<set<Triple>>, log: seq<seq<Triple>>, graph: set<Triple>)
    reads items
  {
    RunSoFar(g, IdsOf(items, CodeRepositoryId), stages, log, graph) && CodeRepositoriesBuilt(items, uris, stages, log)
  }

  lemma CodeRepositoriesSoFarStep(g: set<Triple>, items: seq<CodeRepository>, uris: seq<Term>,
                                  stages: seq<set<Triple>>, log: seq<seq<Triple>>, graph: set<Triple>,
                                  c: CodeRepository, uri: Term, written: seq<Triple>, next: set<Triple>)
    requires CodeRepositoriesSoFar(g, items, uris, stages, log, graph)
    requires CodeRepositoryBuilt(graph, c, uri, written) && next == graph + TriplesOf(written) && Carries(next, uri, c.id)
    ensures CodeRepositoriesSoFar(g, items + [c], uris + [uri], stages + [next], log + [written], next)
  {
    CodeRepositoriesStep(items, uris, stages, log, c, uri, written, next);
    RunSoFarStep(g, IdsOf(items, CodeRepositoryId), stages, log, graph, c.id, uri, written, next);
    IdsOfAppend(items, c, CodeRepositoryId);
  }

  ghost predicate ProcessRepositoriesBuilt(items: seq<SoSProcessRepository>, uris: seq<Term>,
                                           stages: seq<set<Triple>>, log: seq<seq<Triple>>)
    reads items
  {
    |uris| == |items| <= |log| < |stages|
    && forall k {:trigger ProcessRepositoryBuilt(stages[k], items[k], uris[k], log[k])} :: 0 <= k < |items| ==>
         items[k].codeRepository != null && ProcessRepositoryBuilt(stages[k], items[k], uris[k], log[k])
  }

  lemma ProcessRepositoriesStep(items: seq<SoSProcessRepository>, uris: seq<Term>, stages: seq<set<Triple>>,
                                log: seq<seq<Triple>>, r: SoSProcessRepository, uri: Term, written: seq<Triple>,
                                next: set<Triple>)
    requires ProcessRepositoriesBuilt(items, uris, stages, log) && |log| == |items|
    requires r.codeRepository != null && ProcessRepositoryBuilt(stages[|items|], r, uri, written)
    ensures ProcessRepositoriesBuilt(items + [r], uris + [uri], stages + [next], log + [written])
  {
  }

  ghost predicate ProcessesBuilt(items: seq<SoSProcess>, uris: seq<Term>, stages: seq<set<Triple>>,
                                 log: seq<seq<Triple>>)
    reads items
  {
    |uris| == |items| <= |log| < |stages|
    && forall k {:trigger ProcessBuilt(stages[k], items[k], uris[k], log[k])} :: 0 <= k < |items| ==>
         items[k].repository != null && ProcessBuilt(stages[k], items[k], uris[k], log[k])
  }

  lemma ProcessesStep(items: seq<SoSProcess>, uris: seq<Term>, stages: seq<set<Triple>>, log: seq<seq<Triple>>,
                      p: SoSProcess, uri: Term, written: seq<Triple>, next: set<Triple>)
    requires ProcessesBuilt(items, uris, stages, log) && |log| == |items|
    requires p.repository != null && ProcessBuilt(stages[|items|], p, uri, written)
    ensures ProcessesBuilt(items + [p], uris + [uri], stages + [next], log + [written])
  {
  }

  ghost predicate DisciplinesBuilt(items: seq<SoSDiscipline>, uris: seq<Term>, stages: seq<set<Triple>>,
                                   log: seq<seq<Triple>>)
    reads items
  {
    |uris| == |items| <= |log| < |stages|
    && forall k {:trigger DisciplineBuilt(stages[k], items[k], uris[k], log[k])} :: 0 <= k < |items| ==>
         items[k].repository != null && DisciplineBuilt(stages[k], items[k], uris[k], log[k])
  }

  lemma DisciplinesStep(items: seq<SoSDiscipline>, uris: seq<Term>, stages: seq<set<Triple>>, log: seq<seq<Triple>>,
                        d: SoSDiscipline, uri: Term, written: seq<Triple>, next: set<Triple>)
    requires DisciplinesBuilt(items, uris, stages, log) && |log| == |items|
    requires d.repository != null && DisciplineBuilt(stages[|items|], d, uri, written)
    ensures DisciplinesBuilt(items + [d], uris + [uri], stages + [next], log + [written])
  {
  }

  ghost predicate UsecasesBuilt(items: seq<SoSUsecase>, uris: seq<Term>, stages: seq<set<Triple>>,
                                log: seq<seq<Triple>>)
  {
    |uris| == |items| <= |log| < |stages|
    && forall k {:trigger UsecaseBuilt(stages[k], items[k], uris[k], log[k])} :: 0 <= k < |items| ==>
         items[k].process != null && UsecaseBuilt(stages[k], items[k], uris[k], log[k])
  }

  lemma UsecasesStep(items: seq<SoSUsecase>, uris: seq<Term>, stages: seq<set<Triple>>, log: seq<seq<Triple>>,
                     u: SoSUsecase, uri: Term, written: seq<Triple>, next: set<Triple>)
    requires UsecasesBuilt(items, uris, stages, log) && |log| == |items|
    requires u.process != null && UsecaseBuilt(stages[|items|], u, uri, written)
    ensures UsecasesBuilt(items + [u], uris + [uri], stages + [next], log + [written])
  {
  }

  ghost predicate CouplingsBuilt(items: seq<SoSCoupling>, uris: seq<Term>, stages: seq<set<Triple>>,
                                 log: seq<seq<Triple>>)
  {
    |uris| == |items| <= |log| < |stages|
    && forall k {:trigger CouplingBuilt(stages[k], items[k], uris[k], log[k])} :: 0 <= k < |items| ==>
         CouplingBuilt(stages[k], items[k], uris[k], log[k])
  }

  lemma CouplingsStep(items: seq<SoSCoupling>, uris: seq<Term>, stages: seq<set<Triple>>, log: seq<seq<Triple>>,
                      c: SoSCoupling, uri: Term, written: seq<Triple>, next: set<Triple>)
    requires CouplingsBuilt(items, uris, stages, log) && |log| == |items|
    requires CouplingBuilt(stages[|items|], c, uri, written)
    ensures CouplingsBuilt(items + [c], uris + [uri], stages + [next], log + [written])
  {
  }

  /** Step `k` of the parameter loop built `items[k]`, whose usages were
      `instances[k]`, on the graph `stages[k]`. */
  ghost predicate ParametersBuilt(items: seq<Parameter>, instances: seq<seq<ParameterUsage>>, uris: seq<Term>,
                                  usageUris: seq<seq<Term>>, stages: seq<set<Triple>>, log: seq<seq<Triple>>)
    reads items, set k, n | 0 <= k < |instances| && 0 <= n < |instances[k]| :: instances[k][n]
  {
    |instances| == |uris| == |usageUris| == |items| <= |log| < |stages|
    && forall k {:trigger ParameterBuilt(stages[k], items[k], uris[k], usageUris[k], log[k])} :: 0 <= k < |items| ==>
         items[k].instances == instances[k] && ParameterBuilt(stages[k], items[k], uris[k], usageUris[k], log[k])
  }

  /** Every usage of every list of `instances` is found by its id on `g`. */
  ghost predicate UsagesResolve(g: set<Triple>, instances: seq<seq<ParameterUsage>>) {
    forall k :: 0 <= k < |instances| ==> AllResolve(g, UsageIdsOf(instances[k]))
  }

  lemma UsagesResolveStep(graph: set<Triple>, instances: seq<seq<ParameterUsage>>, usages: seq<ParameterUsage>,
                          uris: seq<Term>, next: set<Triple>)
    requires UsagesResolve(graph, instances) && graph <= next && CarriesUsages(next, uris, usages)
    ensures UsagesResolve(next, instances + [usages])
  {
    forall k | 0 <= k < |instances| ensures AllResolve(next, UsageIdsOf(instances[k])) {
      AllResolveGrow(graph, next, UsageIdsOf(instances[k]));
    }
    CarriesUsagesResolve(next, uris, usages);
  }

  lemma ParametersStep(items: seq<Parameter>, instances: seq<seq<ParameterUsage>>, uris: seq<Term>,
                       usageUris: seq<seq<Term>>, stages: seq<set<Triple>>, log: seq<seq<Triple>>, p: Parameter,
                       uri: Term, pUsageUris: seq<Term>, written: seq<Triple>, next: set<Triple>)
    requires ParametersBuilt(items, instances, uris, usageUris, stages, log) && |log| == |items|
    requires ParameterBuilt(stages[|items|], p, uri, pUsageUris, written)
    ensures ParametersBuilt(items + [p], instances + [p.instances], uris + [uri], usageUris + [pUsageUris],
                            stages + [next], log + [written])
  {
  }

  /** The state of `createParametersAndUsagesTriples` after the parameters `items`. */
  ghost predicate ParametersSoFar(g: set<Triple>, items: seq<Parameter>, instances: seq<seq<ParameterUsage>>,
                                  uris: seq<Term>, usageUris: seq<seq<Term>>, stages: seq<set<Triple>>,
                                  log: seq<seq<Triple>>, graph: set<Triple>)
    reads items, set k, n | 0 <= k < |instances| && 0 <= n < |instances[k]| :: instances[k][n]
  {
    RunSoFar(g, IdsOf(items, ParameterId), stages, log, graph)
    && ParametersBuilt(items, instances, uris, usageUris, stages, log) && UsagesResolve(graph, instances)
  }

  lemma ParametersSoFarStep(g: set<Triple>, items: seq<Parameter>, instances: seq<seq<ParameterUsage>>,
                            uris: seq<Term>, usageUris: seq<seq<Term>>, stages: seq<set<Triple>>,
                            log: seq<seq<Triple>>, graph: set<Triple>,
                            p: Parameter, uri: Term, pUsageUris: seq<Term>, written: seq<Triple>, next: set<Triple>,
                            items': seq<Parameter>)
    requires ParametersSoFar(g, items, instances, uris, usageUris, stages, log, graph)
    requires ParameterBuilt(graph, p, uri, pUsageUris, written) && next == graph + TriplesOf(written)
    requires Carries(next, uri, p.id) && CarriesUsages(next, pUsageUris, p.instances)
    requires items' == items + [p]
    ensures ParametersSoFar(g, items', instances + [p.instances], uris + [uri], usageUris + [pUsageUris],
                            stages + [next], log + [written], next)
  {
    ParametersStep(items, instances, uris, usageUris, stages, log, p, uri, pUsageUris, written, next);
    RunSoFarStep(g, IdsOf(items, ParameterId), stages, log, graph, p.id, uri, written, next);
    IdsOfAppend(items, p, ParameterId);
    UsagesResolveStep(graph, instances, p.instances, pUsageUris, next);
  }

  /** The links loop after the processes `items`. */
  ghost predicate ProcessLinksRun(g: set<Triple>, items: seq<SoSProcess>, stages: seq<set<Triple>>,
                                  log: seq<seq<Triple>>, graph: set<Triple>)
    reads items
  {
    Chain(stages, log) && stages[0] == g && |log| == |items| && stages[|log|] == graph
    && forall k {:trigger ProcessLinksBuilt(stages[k], items[k], log[k])} :: 0 <= k < |items| ==>
         ProcessLinksBuilt(stages[k], items[k], log[k])
  }

  lemma ProcessLinksStep(g: set<Triple>, items: seq<SoSProcess>, stages: seq<set<Triple>>, log: seq<seq<Triple>>,
                         graph: set<Triple>, p: SoSProcess, written: seq<Triple>, next: set<Triple>)
    requires ProcessLinksRun(g, items, stages, log, graph)
    requires ProcessLinksBuilt(graph, p, written) && next == graph + TriplesOf(written)
    ensures ProcessLinksRun(g, items + [p], stages + [next], log + [written], next)
  {
  }

  /** The state of `createSoSProcessRepositoriesTriples` after the process repositories `items`. */
  ghost predicate ProcessRepositoriesSoFar(g: set<Triple>, items: seq<SoSProcessRepository>, uris: seq<Term>,
                             stages: seq<set<Triple>>, log: seq<seq<Triple>>, graph: set<Triple>)
    reads items
  {
    RunSoFar(g, IdsOf(items, ProcessRepositoryId), stages, log, graph) && ProcessRepositoriesBuilt(items, uris, stages, log)
  }

  lemma ProcessRepositoriesSoFarStep(g: set<Triple>, items: seq<SoSProcessRepository>, uris: seq<Term>,
                       stages: seq<set<Triple>>, log: seq<seq<Triple>>, graph: set<Triple>,
                       r: SoSProcessRepository, uri: Term, written: seq<Triple>, next: set<Triple>)
    requires ProcessRepositoriesSoFar(g, items, uris, stages, log, graph)
    requires r.codeRepository != null && ProcessRepositoryBuilt(graph, r, uri, written) && next == graph + TriplesOf(written) && Carries(next, uri, r.id)
    ensures ProcessRepositoriesSoFar(g, items + [r], uris + [uri], stages + [next], log + [written], next)
  {
    ProcessRepositoriesStep(items, uris, stages, log, r, uri, written, next);
    RunSoFarStep(g, IdsOf(items, ProcessRepositoryId), stages, log, graph, r.id, uri, written, next);
    IdsOfAppend(items, r, ProcessRepositoryId);
  }

  /** The state of `createSoSProcessTriples` after the processes `items`. */
  ghost predicate ProcessesSoFar(g: set<Triple>, items: seq<SoSProcess>, uris: seq<Term>,
                             stages: seq<set<Triple>>, log: seq<seq<Triple>>, graph: set<Triple>)
    reads items
  {
    RunSoFar(g, IdsOf(items, ProcessId), stages, log, graph) && ProcessesBuilt(items, uris, stages, log)
  }

  lemma ProcessesSoFarStep(g: set<Triple>, items: seq<SoSProcess>, uris: seq<Term>,
                       stages: seq<set<Triple>>, log: seq<seq<Triple>>, graph: set<Triple>,
                       p: SoSProcess, uri: Term, written: seq<Triple>, next: set<Triple>)
    requires ProcessesSoFar(g, items, uris, stages, log, graph)
    requires p.repository != null && ProcessBuilt(graph, p, uri, written) && next == graph + TriplesOf(written) && Carries(next, uri, p.id)
    ensures ProcessesSoFar(g, items + [p], uris + [uri], stages + [next], log + [written], next)
  {
    ProcessesStep(items, uris, stages, log, p, uri, written, next);
    RunSoFarStep(g, IdsOf(items, ProcessId), stages, log, graph, p.id, uri, written, next);
    IdsOfAppend(items, p, ProcessId);
  }

  /** The state of `createSoSDisciplinesTriples` after the disciplines `items`. */
  ghost predicate DisciplinesSoFar(g: set<Triple>, items: seq<SoSDiscipline>, uris: seq<Term>,
                             stages: seq<set<Triple>>, log: seq<seq<Triple>>, graph: set<Triple>)
    reads items
  {
    RunSoFar(g, IdsOf(items, DisciplineId), stages, log, graph) && DisciplinesBuilt(items, uris, stages, log)
  }

  lemma DisciplinesSoFarStep(g: set<Triple>, items: seq<SoSDiscipline>, uris: seq<Term>,
                       stages: seq<set<Triple>>, log: seq<seq<Triple>>, graph: set<Triple>,
                       d: SoSDiscipline, uri: Term, written: seq<Triple>, next: set<Triple>)
    requires DisciplinesSoFar(g, items, uris, stages, log, graph)
    requires d.repository != null && DisciplineBuilt(graph, d, uri, written) && next == graph + TriplesOf(written) && Carries(next, uri, d.id)
    ensures DisciplinesSoFar(g, items + [d], uris + [uri], stages + [next], log + [written], next)
  {
    DisciplinesStep(items, uris, stages, log, d, uri, written, next);
    RunSoFarStep(g, IdsOf(items, DisciplineId), stages, log, graph, d.id, uri, written, next);
    IdsOfAppend(items, d, DisciplineId);
  }

  /** The state of `createUsecasesTriples` after the usecases `items`. */
  ghost predicate UsecasesSoFar(g: set<Triple>, items: seq<SoSUsecase>, uris: seq<Term>,
                             stages: seq<set<Triple>>, log: seq<seq<Triple>>, graph: set<Triple>)
  {
    RunSoFar(g, IdsOf(items, UsecaseId), stages, log, graph) && UsecasesBuilt(items, uris, stages, log)
  }

  lemma UsecasesSoFarStep(g: set<Triple>, items: seq<SoSUsecase>, uris: seq<Term>,
                       stages: seq<set<Triple>>, log: seq<seq<Triple>>, graph: set<Triple>,
                       u: SoSUsecase, uri: Term, written: seq<Triple>, next: set<Triple>)
    requires UsecasesSoFar(g, items, uris, stages, log, graph)
    requires u.process != null && UsecaseBuilt(graph, u, uri, written) && next == graph + TriplesOf(written) && Carries(next, uri, u.id)
    ensures UsecasesSoFar(g, items + [u], uris + [uri], stages + [next], log + [written], next)
  {
    UsecasesStep(items, uris, stages, log, u, uri, written, next);
    RunSoFarStep(g, IdsOf(items, UsecaseId), stages, log, graph, u.id, uri, written, next);
    IdsOfAppend(items, u, UsecaseId);
  }

  /** The state of `createCouplingsTriples` after the couplings `items`. */
  ghost predicate CouplingsSoFar(g: set<Triple>, items: seq<SoSCoupling>, uris: seq<Term>,
                             stages: seq<set<Triple>>, log: seq<seq<Triple>>, graph: set<Triple>)
  {
    RunSoFar(g, IdsOf(items, CouplingId), stages, log, graph) && CouplingsBuilt(items, uris, stages, log)
  }

  lemma CouplingsSoFarStep(g: set<Triple>, items: seq<SoSCoupling>, uris: seq<Term>,
                       stages: seq<set<Triple>>, log: seq<seq<Triple>>, graph: set<Triple>,
                       c: SoSCoupling, uri: Term, written: seq<Triple>, next: set<Triple>)
    requires CouplingsSoFar(g, items, uris, stages, log, graph)
    requires CouplingBuilt(graph, c, uri, written) && next == graph + TriplesOf(written) && Carries(next, uri, c.id)
    ensures CouplingsSoFar(g, items + [c], uris + [uri], stages + [next], log + [written], next)
  {
    CouplingsStep(items, uris, stages, log, c, uri, written, next);
    RunSoFarStep(g, IdsOf(items, CouplingId), stages, log, graph, c.id, uri, written, next);
    IdsOfAppend(items, c, CouplingId);
  }

  /** The outcome of `createSoSProcessRepositoriesTriples`: the steps taken, and either all of
      `items` or a raise at the first one whose `codeRepository` is missing. */
  ghost predicate ProcessRepositoriesRun(g: set<Triple>, items: seq<SoSProcessRepository>, raised: Option<PyError>, uris: seq<Term>,
                          stages: seq<set<Triple>>, log: seq<seq<Triple>>, graph: set<Triple>)
    reads items
  {
    |log| <= |items| && ProcessRepositoriesSoFar(g, items[..|log|], uris, stages, log, graph)
    && (raised.None? ==> |log| == |items|)
    && (raised.Some? ==> |log| < |items| && items[|log|].codeRepository == null && raised == Some(AttributeError(NoneHasNoId)))
  }

  /** The outcome of `createSoSProcessTriples`: the steps taken, and either all of
      `items` or a raise at the first one whose `repository` is missing. */
  ghost predicate ProcessesRun(g: set<Triple>, items: seq<SoSProcess>, raised: Option<PyError>, uris: seq<Term>,
                          stages: seq<set<Triple>>, log: seq<seq<Triple>>, graph: set<Triple>)
    reads items
  {
    |log| <= |items| && ProcessesSoFar(g, items[..|log|], uris, stages, log, graph)
    && (raised.None? ==> |log| == |items|)
    && (raised.Some? ==> |log| < |items| && items[|log|].repository == null && raised == Some(AttributeError(NoneHasNoId)))
  }

  /** The outcome of `createSoSDisciplinesTriples`: the steps taken, and either all of
      `items` or a raise at the first one whose `repository` is missing. */
  ghost predicate DisciplinesRun(g: set<Triple>, items: seq<SoSDiscipline>, raised: Option<PyError>, uris: seq<Term>,
                          stages: seq<set<Triple>>, log: seq<seq<Triple>>, graph: set<Triple>)
    reads items
  {
    |log| <= |items| && DisciplinesSoFar(g, items[..|log|], uris, stages, log, graph)
    && (raised.None? ==> |log| == |items|)
    && (raised.Some? ==> |log| < |items| && items[|log|].repository == null && raised == Some(AttributeError(NoneHasNoId)))
  }

  /** The outcome of `createUsecasesTriples`: the steps taken, and either all of
      `items` or a raise at the first one whose `process` is missing. */
  ghost predicate UsecasesRun(g: set<Triple>, items: seq<SoSUsecase>, raised: Option<PyError>, uris: seq<Term>,
                          stages: seq<set<Triple>>, log: seq<seq<Triple>>, graph: set<Triple>)
  {
    |log| <= |items| && UsecasesSoFar(g, items[..|log|], uris, stages, log, graph)
    && (raised.None? ==> |log| == |items|)
    && (raised.Some? ==> |log| < |items| && items[|log|].process == null && raised == Some(AttributeError(NoneHasNoId)))
  }

  /** Every one of `items` has its code repository. */
  predicate ProcessRepositoriesLinked(items: seq<SoSProcessRepository>) {
    forall k :: 0 <= k < |items| ==> items[k].codeRepository != null
  }

  lemma ProcessRepositoriesAt(items: seq<SoSProcessRepository>, uris: seq<Term>, stages: seq<set<Triple>>, log: seq<seq<Triple>>, k: nat)
    requires ProcessRepositoriesBuilt(items, uris, stages, log) && k < |items|
    ensures items[k].codeRepository != null && ProcessRepositoryBuilt(stages[k], items[k], uris[k], log[k])
  {
  }

  /** What the outcome of the loop tells: the graph only grew, the loop
      raised exactly when some entity lacks its code repository, and otherwise every
      entity is found by its id. */
  lemma ProcessRepositoriesOutcome(g: set<Triple>, items: seq<SoSProcessRepository>, raised: Option<PyError>, uris: seq<Term>,
                         stages: seq<set<Triple>>, log: seq<seq<Triple>>, graph: set<Triple>)
    requires ProcessRepositoriesRun(g, items, raised, uris, stages, log, graph)
    ensures g <= graph
    ensures raised.None? <==> ProcessRepositoriesLinked(items)
    ensures raised.Some? ==> raised == Some(AttributeError(NoneHasNoId))
    ensures raised.None? ==> AllResolve(graph, IdsOf(items, ProcessRepositoryId))
  {
    var n := |log|;
    RunSoFarGrows(g, IdsOf(items[..n], ProcessRepositoryId), stages, log, graph);
    if raised.None? {
      assert items[..n] == items;
      forall k | 0 <= k < |items| ensures items[k].codeRepository != null {
        ProcessRepositoriesAt(items, uris, stages, log, k);
      }
    }
  }

  /** Every one of `items` has its repository. */
  predicate ProcessesLinked(items: seq<SoSProcess>) {
    forall k :: 0 <= k < |items| ==> items[k].repository != null
  }

  lemma ProcessesAt(items: seq<SoSProcess>, uris: seq<Term>, stages: seq<set<Triple>>, log: seq<seq<Triple>>, k: nat)
    requires ProcessesBuilt(items, uris, stages, log) && k < |items|
    ensures items[k].repository != null && ProcessBuilt(stages[k], items[k], uris[k], log[k])
  {
  }

  /** What the outcome of the loop tells: the graph only grew, the loop
      raised exactly when some entity lacks its repository, and otherwise every
      entity is found by its id. */
  lemma ProcessesOutcome(g: set<Triple>, items: seq<SoSProcess>, raised: Option<PyError>, uris: seq<Term>,
                         stages: seq<set<Triple>>, log: seq<seq<Triple>>, graph: set<Triple>)
    requires ProcessesRun(g, items, raised, uris, stages, log, graph)
    ensures g <= graph
    ensures raised.None? <==> ProcessesLinked(items)
    ensures raised.Some? ==> raised == Some(AttributeError(NoneHasNoId))
    ensures raised.None? ==> AllResolve(graph, IdsOf(items, ProcessId))
  {
    var n := |log|;
    RunSoFarGrows(g, IdsOf(items[..n], ProcessId), stages, log, graph);
    if raised.None? {
      assert items[..n] == items;
      forall k | 0 <= k < |items| ensures items[k].repository != null {
        ProcessesAt(items, uris, stages, log, k);
      }
    }
  }

  /** Every one of `items` has its repository. */
  predicate DisciplinesLinked(items: seq<SoSDiscipline>) {
    forall k :: 0 <= k < |items| ==> items[k].repository != null
  }

  lemma DisciplinesAt(items: seq<SoSDiscipline>, uris: seq<Term>, stages: seq<set<Triple>>, log: seq<seq<Triple>>, k: nat)
    requires DisciplinesBuilt(items, uris, stages, log) && k < |items|
    ensures items[k].repository != null && DisciplineBuilt(stages[k], items[k], uris[k], log[k])
  {
  }

  /** What the outcome of the loop tells: the graph only grew, the loop
      raised exactly when some entity lacks its repository, and otherwise every
      entity is found by its id. */
  lemma DisciplinesOutcome(g: set<Triple>, items: seq<SoSDiscipline>, raised: Option<PyError>, uris: seq<Term>,
                         stages: seq<set<Triple>>, log: seq<seq<Triple>>, graph: set<Triple>)
    requires DisciplinesRun(g, items, raised, uris, stages, log, graph)
    ensures g <= graph
    ensures raised.None? <==> DisciplinesLinked(items)
    ensures raised.Some? ==> raised == Some(AttributeError(NoneHasNoId))
    ensures raised.None? ==> AllResolve(graph, IdsOf(items, DisciplineId))
  {
    var n := |log|;
    RunSoFarGrows(g, IdsOf(items[..n], DisciplineId), stages, log, graph);
    if raised.None? {
      assert items[..n] == items;
      forall k | 0 <= k < |items| ensures items[k].repository != null {
        DisciplinesAt(items, uris, stages, log, k);
      }
    }
  }

  /** Every one of `items` has its process. */
  predicate UsecasesLinked(items: seq<SoSUsecase>) {
    forall k :: 0 <= k < |items| ==> items[k].process != null
  }

  lemma UsecasesAt(items: seq<SoSUsecase>, uris: seq<Term>, stages: seq<set<Triple>>, log: seq<seq<Triple>>, k: nat)
    requires UsecasesBuilt(items, uris, stages, log) && k < |items|
    ensures items[k].process != null && UsecaseBuilt(stages[k], items[k], uris[k], log[k])
  {
  }

  /** What the outcome of the loop tells: the graph only grew, the loop
      raised exactly when some entity lacks its process, and otherwise every
      entity is found by its id. */
  lemma UsecasesOutcome(g: set<Triple>, items: seq<SoSUsecase>, raised: Option<PyError>, uris: seq<Term>,
                         stages: seq<set<Triple>>, log: seq<seq<Triple>>, graph: set<Triple>)
    requires UsecasesRun(g, items, raised, uris, stages, log, graph)
    ensures g <= graph
    ensures raised.None? <==> UsecasesLinked(items)
    ensures raised.Some? ==> raised == Some(AttributeError(NoneHasNoId))
    ensures raised.None? ==> AllResolve(graph, IdsOf(items, UsecaseId))
  {
    var n := |log|;
    RunSoFarGrows(g, IdsOf(items[..n], UsecaseId), stages, log, graph);
    if raised.None? {
      assert items[..n] == items;
      forall k | 0 <= k < |items| ensures items[k].process != null {
        UsecasesAt(items, uris, stages, log, k);
      }
    }
  }
}
