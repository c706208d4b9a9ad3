/** `SoSOntology`: the SoS Trades ontology over the triple store — the ABox
    builder that writes one node per registered entity and the links between
    them, and the read side (metadata, tree view, model list) the web service
    serves from the graph. */
module SoSOntology {
  import opened Wrappers
  import opened PyValue
  import opened PyDict
  import opened Ontology
  import opened SoSEntities
  import opened SoSGraph
  import opened SoSViews
  import PyStr

  class SoSOntology {
    /** The graph and its store operations (`SoSOntology` extends `Ontology`). */
    const onto: Ontology
    /** `{**datapropertyDict, **annotationPropertyDict}`: each attribute
        predicate of the loaded ontology with its label. */
    const attributeLabels: map<Term, string>
    /** `split_uri(uri)[-1]`, the local name of a URI (rdflib internals). */
    const localNameOf: Term -> string

    constructor (onto: Ontology, attributeLabels: map<Term, string>, localNameOf: Term -> string)
      ensures this.onto == onto && this.attributeLabels == attributeLabels && this.localNameOf == localNameOf
    {
      this.onto := onto;
      this.attributeLabels := attributeLabels;
      this.localNameOf := localNameOf;
    }

    // ---------------------------------------------------------------- lookups

    /** `value(None, SOS.id, toLiteral(id), 'uri')` for each id in turn,
        keeping the answers that are not None. */
    method Resolve(ids: seq<string>) returns (nodes: seq<Term>)
      ensures Resolution(onto.graph, ids, nodes)
    {
      nodes := [];
      var i := 0;
      while i < |ids|
        invariant 0 <= i <= |ids|
        invariant Resolution(onto.graph, ids[..i], nodes)
      {
        assert ids[..i + 1][..i] == ids[..i];
        var found := onto.FindById(SosId, ids[i]);
        if found.Some? {
          nodes := nodes + [found.value];
        }
        i := i + 1;
      }
      assert ids[..i] == ids;
    }

    // ---------------------------------------------------------------- one entity

    /** One code repository of `createCodeRepositoriesTriples`. */
    method AddCodeRepository(c: CodeRepository) returns (uri: Term, written: seq<Triple>)
      modifies onto`graph
      ensures CodeRepositoryBuilt(old(onto.graph), c, uri, written)
      ensures onto.graph == old(onto.graph) + TriplesOf(written)
      ensures Carries(onto.graph, uri, c.id)
    {
      uri := onto.CreateNewURI(CodeRepositoryNamespace, c.id);
      written := CodeRepositoryTriples(uri, c);
      Carried(uri, "CodeRepository", IdLiteral(c.id), c.id, CodeRepositoryAttributes(c), []);
      assert written + [] == written;
      onto.AddTriplesList(written);
    }

    /** One process repository of `createSoSProcessRepositoriesTriples`: a
        missing code repository raises before anything is added. */
    method AddProcessRepository(r: SoSProcessRepository) returns (uri: Term, written: seq<Triple>, raised: Option<PyError>)
      modifies onto`graph
      ensures raised.Some? <==> r.codeRepository == null
      ensures raised.Some? ==> raised == Some(AttributeError(NoneHasNoId)) && onto.graph == old(onto.graph)
      ensures raised.None? ==> r.codeRepository != null && ProcessRepositoryBuilt(old(onto.graph), r, uri, written)
      ensures raised.None? ==> onto.graph == old(onto.graph) + TriplesOf(written) && Carries(onto.graph, uri, r.id)
    {
      uri := onto.CreateNewURI(ProcessRepositoryNamespace, r.id);
      if r.codeRepository == null {
        return uri, [], Some(AttributeError(NoneHasNoId));
      }
      var owners := Resolve([r.codeRepository.id]);
      written := ProcessRepositoryTriples(uri, r) + Links(uri, BelongsTo, owners);
      Carried(uri, "SoSProcessRepository", Literal(r.entityLabel), r.id, ProcessRepositoryAttributes(r), Links(uri, BelongsTo, owners));
      onto.AddTriplesList(written);
      raised := None;
    }

    /** One process of `createSoSProcessTriples`: a missing repository raises
        before anything is added. */
    method AddProcess(p: SoSProcess) returns (uri: Term, written: seq<Triple>, raised: Option<PyError>)
      modifies onto`graph
      ensures raised.Some? <==> p.repository == null
      ensures raised.Some? ==> raised == Some(AttributeError(NoneHasNoId)) && onto.graph == old(onto.graph)
      ensures raised.None? ==> p.repository != null && ProcessBuilt(old(onto.graph), p, uri, written)
      ensures raised.None? ==> onto.graph == old(onto.graph) + TriplesOf(written) && Carries(onto.graph, uri, p.id)
    {
      uri := onto.CreateNewURI(ProcessNamespace, p.id);
      if p.repository == null {
        return uri, [], Some(AttributeError(NoneHasNoId));
      }
      var owners := Resolve([p.repository.id]);
      written := ProcessTriples(uri, p) + Links(uri, BelongsTo, owners);
      Carried(uri, "SoSProcess", Literal(p.entityLabel), p.id, ProcessAttributes(p), Links(uri, BelongsTo, owners));
      onto.AddTriplesList(written);
      raised := None;
    }

    /** One discipline of `createSoSDisciplinesTriples`: a missing repository
        raises before anything is added. */
    method AddDiscipline(d: SoSDiscipline) returns (uri: Term, written: seq<Triple>, raised: Option<PyError>)
      modifies onto`graph
      ensures raised.Some? <==> d.repository == null
      ensures raised.Some? ==> raised == Some(AttributeError(NoneHasNoId)) && onto.graph == old(onto.graph)
      ensures raised.None? ==> d.repository != null && DisciplineBuilt(old(onto.graph), d, uri, written)
      ensures raised.None? ==> onto.graph == old(onto.graph) + TriplesOf(written) && Carries(onto.graph, uri, d.id)
    {
      uri := onto.CreateNewURI(DisciplineNamespace, d.id);
      if d.repository == null {
        return uri, [], Some(AttributeError(NoneHasNoId));
      }
      var owners := Resolve([d.repository.id]);
      var again := Resolve([d.repository.id]);
      var inputs: seq<Term> := [];
      if |d.inputIds| > 0 {
        inputs := Resolve(UsageIdsOf(d.inputUsages));
      }
      var outputs: seq<Term> := [];
      if |d.outputIds| > 0 {
        outputs := Resolve(UsageIdsOf(d.outputUsages));
      }
      written := DisciplineTriples(uri, d) + DisciplineLinks(uri, owners, again, inputs, outputs);
      DisciplineBuiltIntro(onto.graph, d, uri, owners, again, inputs, outputs);
      onto.AddTriplesList(written);
      raised := None;
    }

    /** One usecase of `createUsecasesTriples`: a missing process raises at
        its lookup, before anything is added. */
    method AddUsecase(u: SoSUsecase) returns (uri: Term, written: seq<Triple>, raised: Option<PyError>)
      modifies onto`graph
      ensures raised.Some? <==> u.process == null
      ensures raised.Some? ==> raised == Some(AttributeError(NoneHasNoId)) && onto.graph == old(onto.graph)
      ensures raised.None? ==> u.process != null && UsecaseBuilt(old(onto.graph), u, uri, written)
      ensures raised.None? ==> onto.graph == old(onto.graph) + TriplesOf(written) && Carries(onto.graph, uri, u.id)
    {
      uri := onto.CreateNewURI(UsecaseNamespace, u.id);
      if u.process == null {
        return uri, [], Some(AttributeError(NoneHasNoId));
      }
      var processes := Resolve([u.process.id]);
      written := UsecaseTriples(uri, u) + Links(uri, Implements, processes);
      Carried(uri, "Usecase", Literal(u.entityLabel), u.id, [("runUsecase", u.runUsecase)], Links(uri, Implements, processes));
      onto.AddTriplesList(written);
      raised := None;
    }

    /** One coupling of `createCouplingsTriples`. */
    method AddCoupling(c: SoSCoupling) returns (uri: Term, written: seq<Triple>)
      modifies onto`graph
      ensures CouplingBuilt(old(onto.graph), c, uri, written)
      ensures onto.graph == old(onto.graph) + TriplesOf(written) && Carries(onto.graph, uri, c.id)
    {
      uri := onto.CreateNewURI(CouplingNamespace, c.id);
      var from := Resolve([c.disciplineFrom.id]);
      var to := Resolve([c.disciplineTo.id]);
      var ins: seq<Term> := [];
      if c.parameterUsageIn != null {
        ins := Resolve([c.parameterUsageIn.id]);
      }
      var outs: seq<Term> := [];
      if c.parameterUsageOut != null {
        outs := Resolve([c.parameterUsageOut.id]);
      }
      written := CouplingWritten(uri, c, from, to, ins, outs);
      CouplingBuiltIntro(onto.graph, c, uri, from, to, ins, outs);
      onto.AddTriplesList(written);
    }

    /** One parameter of `createParametersAndUsagesTriples`: its triples are
        added, then those of its usages. */
    method AddParameterAndUsages(p: Parameter) returns (uri: Term, usageUris: seq<Term>, written: seq<Triple>)
      modifies onto`graph
      ensures ParameterBuilt(old(onto.graph), p, uri, usageUris, written)
      ensures onto.graph == old(onto.graph) + TriplesOf(written)
      ensures Carries(onto.graph, uri, p.id) && CarriesUsages(onto.graph, usageUris, p.instances)
    {
      ghost var g := onto.graph;
      uri := onto.CreateNewURI(ParameterNamespace, p.id);
      var head := ParameterTriples(uri, p);
      onto.AddTriplesList(head);
      var tail;
      ghost var stages, log;
      usageUris, tail, stages, log := AddUsages(p, uri);
      written := head + tail;
      ParameterBuiltIntro(g, p, uri, usageUris, stages, log, tail, onto.graph);
      Carried(uri, "Parameter", Literal(p.entityLabel), p.id, ParameterAttributes(p), tail);
    }

    /** The usage loop of `createParametersAndUsagesTriples`: each usage in
        turn gets a URI new on the graph as it then is, and its triples. */
    method AddUsages(p: Parameter, parameterUri: Term)
      returns (usageUris: seq<Term>, tail: seq<Triple>, ghost stages: seq<set<Triple>>, ghost log: seq<seq<Triple>>)
      modifies onto`graph
      ensures UsagesSoFar(old(onto.graph), p.instances, usageUris, parameterUri, stages, log, tail, onto.graph)
    {
      var usages := p.instances;
      usageUris, tail, stages, log := [], [], [onto.graph], [];
      var j := 0;
      while j < |usages|
        invariant 0 <= j <= |usages| && |usageUris| == |log| == j
        invariant UsagesSoFar(old(onto.graph), usages[..j], usageUris, parameterUri, stages, log, tail, onto.graph)
      {
        var u := usages[j];
        var next, triples := AddUsage(u, parameterUri, old(onto.graph), usages[..j], usageUris, stages, log, tail);
        TakeOneMore(usages, j);
        tail := tail + triples;
        usageUris := usageUris + [next];
        stages := stages + [onto.graph];
        log := log + [triples];
        j := j + 1;
      }
      assert usages[..j] == usages;
    }

    /** One usage of the loop: a new URI on the graph reached, then its
        triples, which extends the run of the loop so far. */
    method AddUsage(u: ParameterUsage, parameterUri: Term, ghost g: set<Triple>, ghost usages: seq<ParameterUsage>,
                    ghost uris: seq<Term>, ghost stages: seq<set<Triple>>, ghost log: seq<seq<Triple>>,
                    ghost tail: seq<Triple>)
      returns (uri: Term, triples: seq<Triple>)
      requires UsagesSoFar(g, usages, uris, parameterUri, stages, log, tail, onto.graph)
      modifies onto`graph
      ensures UsagesSoFar(g, usages + [u], uris + [uri], parameterUri, stages + [onto.graph], log + [triples],
                          tail + triples, onto.graph)
    {
      ghost var before := onto.graph;
      uri := onto.CreateNewURI(UsageNamespace, u.id);
      triples := UsageTriples(uri, u, parameterUri);
      onto.AddTriplesList(triples);
      UsageStepIntro(before, u, uri, parameterUri);
      UsagesSoFarStep(g, usages, uris, parameterUri, stages, log, tail, before, u, uri, triples, onto.graph);
    }

    // ---------------------------------------------------------------- builder loops

    /** `createCodeRepositoriesTriples`: each code repository in turn. */
    method CreateCodeRepositoriesTriples(items: seq<CodeRepository>)
      returns (ghost uris: seq<Term>, ghost stages: seq<set<Triple>>, ghost log: seq<seq<Triple>>)
      modifies onto`graph
      ensures CodeRepositoriesSoFar(old(onto.graph), items, uris, stages, log, onto.graph)
    {
      uris, stages, log := [], [onto.graph], [];
      var j := 0;
      while j < |items|
        invariant 0 <= j <= |items| && |log| == j
        invariant CodeRepositoriesSoFar(old(onto.graph), items[..j], uris, stages, log, onto.graph)
      {
        var uri, written := StepCodeRepository(old(onto.graph), items, j, uris, stages, log);
        uris, stages, log := uris + [uri], stages + [onto.graph], log + [written];
        j := j + 1;
      }
      assert items[..j] == items;
    }

    /** Step `j` of the loop. */
    method StepCodeRepository(ghost g: set<Triple>, items: seq<CodeRepository>, j: nat, ghost uris: seq<Term>,
                    ghost stages: seq<set<Triple>>, ghost log: seq<seq<Triple>>)
      returns (uri: Term, written: seq<Triple>)
      requires j < |items| && CodeRepositoriesSoFar(g, items[..j], uris, stages, log, onto.graph)
      modifies onto`graph
      ensures CodeRepositoriesSoFar(g, items[..j + 1], uris + [uri], stages + [onto.graph], log + [written], onto.graph)
    {
      ghost var before := onto.graph;
      uri, written := AddCodeRepository(items[j]);
      CodeRepositoriesSoFarStep(g, items[..j], uris, stages, log, before, items[j], uri, written, onto.graph);
      TakeOneMore(items, j);
    }

    /** `createSoSProcessRepositoriesTriples`: each process repository in turn, until one whose `codeRepository`
        is missing raises. */
    method CreateSoSProcessRepositoriesTriples(items: seq<SoSProcessRepository>)
      returns (raised: Option<PyError>, ghost uris: seq<Term>, ghost stages: seq<set<Triple>>,
               ghost log: seq<seq<Triple>>)
      modifies onto`graph
      ensures ProcessRepositoriesRun(old(onto.graph), items, raised, uris, stages, log, onto.graph)
    {
      uris, stages, log := [], [onto.graph], [];
      var j := 0;
      while j < |items|
        invariant 0 <= j <= |items| && |log| == j
        invariant ProcessRepositoriesSoFar(old(onto.graph), items[..j], uris, stages, log, onto.graph)
      {
        var uri, written;
        uri, written, raised := StepProcessRepository(old(onto.graph), items, j, uris, stages, log);
        if raised.Some? {
          return;
        }
        uris, stages, log := uris + [uri], stages + [onto.graph], log + [written];
        j := j + 1;
      }
      assert items[..j] == items;
      raised := None;
    }

    /** Step `j` of the loop. */
    method StepProcessRepository(ghost g: set<Triple>, items: seq<SoSProcessRepository>, j: nat, ghost uris: seq<Term>,
                    ghost stages: seq<set<Triple>>, ghost log: seq<seq<Triple>>)
      returns (uri: Term, written: seq<Triple>, raised: Option<PyError>)
      requires j < |items| && ProcessRepositoriesSoFar(g, items[..j], uris, stages, log, onto.graph)
      modifies onto`graph
      ensures raised.Some? <==> items[j].codeRepository == null
      ensures raised.Some? ==> raised == Some(AttributeError(NoneHasNoId)) && onto.graph == old(onto.graph)
      ensures raised.None? ==> ProcessRepositoriesSoFar(g, items[..j + 1], uris + [uri], stages + [onto.graph], log + [written], onto.graph)
    {
      ghost var before := onto.graph;
      uri, written, raised := AddProcessRepository(items[j]);
      if raised.None? {
        ProcessRepositoriesSoFarStep(g, items[..j], uris, stages, log, before, items[j], uri, written, onto.graph);
        TakeOneMore(items, j);
      }
    }

    /** `createSoSProcessTriples`: each process in turn, until one whose `repository`
        is missing raises. */
    method CreateSoSProcessTriples(items: seq<SoSProcess>)
      returns (raised: Option<PyError>, ghost uris: seq<Term>, ghost stages: seq<set<Triple>>,
               ghost log: seq<seq<Triple>>)
      modifies onto`graph
      ensures ProcessesRun(old(onto.graph), items, raised, uris, stages, log, onto.graph)
    {
      uris, stages, log := [], [onto.graph], [];
      var j := 0;
      while j < |items|
        invariant 0 <= j <= |items| && |log| == j
        invariant ProcessesSoFar(old(onto.graph), items[..j], uris, stages, log, onto.graph)
      {
        var uri, written;
        uri, written, raised := StepProcess(old(onto.graph), items, j, uris, stages, log);
        if raised.Some? {
          return;
        }
        uris, stages, log := uris + [uri], stages + [onto.graph], log + [written];
        j := j + 1;
      }
      assert items[..j] == items;
      raised := None;
    }

    /** Step `j` of the loop. */
    method StepProcess(ghost g: set<Triple>, items: seq<SoSProcess>, j: nat, ghost uris: seq<Term>,
                    ghost stages: seq<set<Triple>>, ghost log: seq<seq<Triple>>)
      returns (uri: Term, written: seq<Triple>, raised: Option<PyError>)
      requires j < |items| && ProcessesSoFar(g, items[..j], uris, stages, log, onto.graph)
      modifies onto`graph
      ensures raised.Some? <==> items[j].repository == null
      ensures raised.Some? ==> raised == Some(AttributeError(NoneHasNoId)) && onto.graph == old(onto.graph)
      ensures raised.None? ==> ProcessesSoFar(g, items[..j + 1], uris + [uri], stages + [onto.graph], log + [written], onto.graph)
    {
      ghost var before := onto.graph;
      uri, written, raised := AddProcess(items[j]);
      if raised.None? {
        ProcessesSoFarStep(g, items[..j], uris, stages, log, before, items[j], uri, written, onto.graph);
        TakeOneMore(items, j);
      }
    }

    /** `createSoSDisciplinesTriples`: each discipline in turn, until one whose `repository`
        is missing raises. */
    method CreateSoSDisciplinesTriples(items: seq<SoSDiscipline>)
      returns (raised: Option<PyError>, ghost uris: seq<Term>, ghost stages: seq<set<Triple>>,
               ghost log: seq<seq<Triple>>)
      modifies onto`graph
      ensures DisciplinesRun(old(onto.graph), items, raised, uris, stages, log, onto.graph)
    {
      uris, stages, log := [], [onto.graph], [];
      var j := 0;
      while j < |items|
        invariant 0 <= j <= |items| && |log| == j
        invariant DisciplinesSoFar(old(onto.graph), items[..j], uris, stages, log, onto.graph)
      {
        var uri, written;
        uri, written, raised := StepDiscipline(old(onto.graph), items, j, uris, stages, log);
        if raised.Some? {
          return;
        }
        uris, stages, log := uris + [uri], stages + [onto.graph], log + [written];
        j := j + 1;
      }
      assert items[..j] == items;
      raised := None;
    }

    /** Step `j` of the loop. */
    method StepDiscipline(ghost g: set<Triple>, items: seq<SoSDiscipline>, j: nat, ghost uris: seq<Term>,
                    ghost stages: seq<set<Triple>>, ghost log: seq<seq<Triple>>)
      returns (uri: Term, written: seq<Triple>, raised: Option<PyError>)
      requires j < |items| && DisciplinesSoFar(g, items[..j], uris, stages, log, onto.graph)
      modifies onto`graph
      ensures raised.Some? <==> items[j].repository == null
      ensures raised.Some? ==> raised == Some(AttributeError(NoneHasNoId)) && onto.graph == old(onto.graph)
      ensures raised.None? ==> DisciplinesSoFar(g, items[..j + 1], uris + [uri], stages + [onto.graph], log + [written], onto.graph)
    {
      ghost var before := onto.graph;
      uri, written, raised := AddDiscipline(items[j]);
      if raised.None? {
        DisciplinesSoFarStep(g, items[..j], uris, stages, log, before, items[j], uri, written, onto.graph);
        TakeOneMore(items, j);
      }
    }

    /** `createUsecasesTriples`: each usecase in turn, until one whose `process`
        is missing raises. */
    method CreateUsecasesTriples(items: seq<SoSUsecase>)
      returns (raised: Option<PyError>, ghost uris: seq<Term>, ghost stages: seq<set<Triple>>,
               ghost log: seq<seq<Triple>>)
      modifies onto`graph
      ensures UsecasesRun(old(onto.graph), items, raised, uris, stages, log, onto.graph)
    {
      uris, stages, log := [], [onto.graph], [];
      var j := 0;
      while j < |items|
        invariant 0 <= j <= |items| && |log| == j
        invariant UsecasesSoFar(old(onto.graph), items[..j], uris, stages, log, onto.graph)
      {
        var uri, written;
        uri, written, raised := StepUsecase(old(onto.graph), items, j, uris, stages, log);
        if raised.Some? {
          return;
        }
        uris, stages, log := uris + [uri], stages + [onto.graph], log + [written];
        j := j + 1;
      }
      assert items[..j] == items;
      raised := None;
    }

    /** Step `j` of the loop. */
    method StepUsecase(ghost g: set<Triple>, items: seq<SoSUsecase>, j: nat, ghost uris: seq<Term>,
                    ghost stages: seq<set<Triple>>, ghost log: seq<seq<Triple>>)
      returns (uri: Term, written: seq<Triple>, raised: Option<PyError>)
      requires j < |items| && UsecasesSoFar(g, items[..j], uris, stages, log, onto.graph)
      modifies onto`graph
      ensures raised.Some? <==> items[j].process == null
      ensures raised.Some? ==> raised == Some(AttributeError(NoneHasNoId)) && onto.graph == old(onto.graph)
      ensures raised.None? ==> UsecasesSoFar(g, items[..j + 1], uris + [uri], stages + [onto.graph], log + [written], onto.graph)
    {
      ghost var before := onto.graph;
      uri, written, raised := AddUsecase(items[j]);
      if raised.None? {
        UsecasesSoFarStep(g, items[..j], uris, stages, log, before, items[j], uri, written, onto.graph);
        TakeOneMore(items, j);
      }
    }

    /** `createCouplingsTriples`: each coupling in turn. */
    method CreateCouplingsTriples(items: seq<SoSCoupling>)
      returns (ghost uris: seq<Term>, ghost stages: seq<set<Triple>>, ghost log: seq<seq<Triple>>)
      modifies onto`graph
      ensures CouplingsSoFar(old(onto.graph), items, uris, stages, log, onto.graph)
    {
      uris, stages, log := [], [onto.graph], [];
      var j := 0;
      while j < |items|
        invariant 0 <= j <= |items| && |log| == j
        invariant CouplingsSoFar(old(onto.graph), items[..j], uris, stages, log, onto.graph)
      {
        var uri, written := StepCoupling(old(onto.graph), items, j, uris, stages, log);
        uris, stages, log := uris + [uri], stages + [onto.graph], log + [written];
        j := j + 1;
      }
      assert items[..j] == items;
    }

    /** Step `j` of the loop. */
    method StepCoupling(ghost g: set<Triple>, items: seq<SoSCoupling>, j: nat, ghost uris: seq<Term>,
                    ghost stages: seq<set<Triple>>, ghost log: seq<seq<Triple>>)
      returns (uri: Term, written: seq<Triple>)
      requires j < |items| && CouplingsSoFar(g, items[..j], uris, stages, log, onto.graph)
      modifies onto`graph
      ensures CouplingsSoFar(g, items[..j + 1], uris + [uri], stages + [onto.graph], log + [written], onto.graph)
    {
      ghost var before := onto.graph;
      uri, written := AddCoupling(items[j]);
      CouplingsSoFarStep(g, items[..j], uris, stages, log, before, items[j], uri, written, onto.graph);
      TakeOneMore(items, j);
    }

    /** `createParametersAndUsagesTriples`: each parameter in turn, with its usages. */
    method CreateParametersAndUsagesTriples(items: seq<Parameter>)
      returns (ghost instances: seq<seq<ParameterUsage>>, ghost uris: seq<Term>, ghost usageUris: seq<seq<Term>>,
               ghost stages: seq<set<Triple>>, ghost log: seq<seq<Triple>>)
      modifies onto`graph
      ensures ParametersSoFar(old(onto.graph), items, instances, uris, usageUris, stages, log, onto.graph)
    {
      instances, uris, usageUris, stages, log := [], [], [], [onto.graph], [];
      var j := 0;
      while j < |items|
        invariant 0 <= j <= |items| && |log| == j
        invariant ParametersSoFar(old(onto.graph), items[..j], instances, uris, usageUris, stages, log, onto.graph)
      {
        var uri, pUsageUris, written := StepParameter(old(onto.graph), items, j, instances, uris, usageUris, stages, log);
        instances, uris, usageUris := instances + [items[j].instances], uris + [uri], usageUris + [pUsageUris];
        stages, log := stages + [onto.graph], log + [written];
        j := j + 1;
      }
      assert items[..j] == items;
    }

    /** Step `j` of the loop. */
    method StepParameter(ghost g: set<Triple>, items: seq<Parameter>, j: nat, ghost instances: seq<seq<ParameterUsage>>,
                         ghost uris: seq<Term>, ghost usageUris: seq<seq<Term>>, ghost stages: seq<set<Triple>>,
                         ghost log: seq<seq<Triple>>)
      returns (uri: Term, pUsageUris: seq<Term>, written: seq<Triple>)
      requires j < |items| && ParametersSoFar(g, items[..j], instances, uris, usageUris, stages, log, onto.graph)
      modifies onto`graph
      ensures ParametersSoFar(g, items[..j + 1], instances + [items[j].instances], uris + [uri], usageUris + [pUsageUris],
                              stages + [onto.graph], log + [written], onto.graph)
    {
      ghost var before := onto.graph;
      uri, pUsageUris, written := AddParameterAndUsages(items[j]);
      TakeOneMore(items, j);
      ParametersSoFarStep(g, items[..j], instances, uris, usageUris, stages, log, before, items[j], uri, pUsageUris,
                          written, onto.graph, items[..j + 1]);
    }

    /** One process of `createLinksBetweenSoSProcessAndSoSDisciplineTriples`:
        a `usedIn` link from each of its disciplines found to the process's
        node, when that is found; nothing is added when there is no link. */
    method AddProcessLinks(p: SoSProcess) returns (written: seq<Triple>)
      modifies onto`graph
      ensures ProcessLinksBuilt(old(onto.graph), p, written)
      ensures onto.graph == old(onto.graph) + TriplesOf(written)
    {
      written := [];
      var processes := Resolve([p.id]);
      var disciplines: seq<Term> := [];
      if |processes| > 0 {
        disciplines := Resolve(p.modelIds);
        written := LinksInto(disciplines, UsedIn, processes[0]);
      }
      ProcessLinksBuiltIntro(onto.graph, p, processes, disciplines, written);
      if |written| > 0 {
        onto.AddTriplesList(written);
      }
    }

    /** `createLinksBetweenSoSProcessAndSoSDisciplineTriples`: each process in turn. */
    method CreateLinksBetweenSoSProcessAndSoSDisciplineTriples(items: seq<SoSProcess>)
      returns (ghost stages: seq<set<Triple>>, ghost log: seq<seq<Triple>>)
      modifies onto`graph
      ensures ProcessLinksRun(old(onto.graph), items, stages, log, onto.graph)
    {
      stages, log := [onto.graph], [];
      var j := 0;
      while j < |items|
        invariant 0 <= j <= |items| && |log| == j
        invariant ProcessLinksRun(old(onto.graph), items[..j], stages, log, onto.graph)
      {
        ghost var before := onto.graph;
        var written := AddProcessLinks(items[j]);
        ProcessLinksStep(old(onto.graph), items[..j], stages, log, before, items[j], written, onto.graph);
        TakeOneMore(items, j);
        stages, log := stages + [onto.graph], log + [written];
        j := j + 1;
      }
      assert items[..j] == items;
    }

    // ---------------------------------------------------------------- read side

    /** `getSubjectAttributes(node, {**datapropertyDict, **annotationPropertyDict})`
        may have returned `attrs`: the uri and the label, and every kept
        literal of the node under its attribute label. */
    ghost predicate AttributesRead(node: Term, attrs: seq<(string, Value)>)
      reads onto
    {
      UniqueKeys(attrs) && HasKey(attrs, "uri") && HasKey(attrs, "label")
      && AllStored(attrs, SubjectTriples(onto.graph, node), attributeLabels)
      && AllExplained(attrs, TermText(node), onto.labelOf(onto.graph, node), SubjectTriples(onto.graph, node), attributeLabels)
    }

    /** An attribute triple of `node` has an IRI object, so reading the
        node's attributes raises. */
    ghost predicate IriAttribute(node: Term)
      reads onto
    {
      exists t :: t in onto.graph && t.s == node && t.p in attributeLabels && t.o.IRI?
    }

    /** Some node of `graph` has an attribute with an IRI object. */
    ghost predicate IriAttributeAnywhere(graph: set<Triple>) {
      exists t :: t in graph && t.p in attributeLabels && t.o.IRI?
    }

    method ReadAttributes(node: Term) returns (r: Result<seq<(string, Value)>, PyError>)
      ensures r.Err? <==> IriAttribute(node)
      ensures r.Ok? ==> AttributesRead(node, r.value)
    {
      var read := onto.GetSubjectAttributes(node, attributeLabels);
      if read.Err? {
        return Err(read.error);
      }
      r := Ok(read.value);
    }

    /** The label a record shows: `label(node)`, or the id when `swap` and
        that label is only the node's local name. */
    function ShownLabel(id: string, node: Term, swap: bool): string
      reads onto
    {
      var preferred := onto.labelOf(onto.graph, node);
      if swap && localNameOf(node) == preferred then id else preferred
    }

    /** The record of a node found for `id`: id and label, then each listed
        attribute the node has. */
    ghost predicate RecordRead(id: string, node: Term, names: seq<string>, swap: bool, record: seq<(string, Value)>)
      reads onto
    {
      exists attrs :: AttributesRead(node, attrs)
                      && record == Listed([("id", VStr(id)), ("label", VStr(ShownLabel(id, node, swap)))], attrs, names)
    }

    method ReadRecord(id: string, node: Term, names: seq<string>, swap: bool)
      returns (r: Result<seq<(string, Value)>, PyError>)
      ensures r.Err? <==> IriAttribute(node)
      ensures r.Ok? ==> RecordRead(id, node, names, swap, r.value) && UniqueKeys(r.value)
    {
      var shown := onto.labelOf(onto.graph, node);
      if swap && localNameOf(node) == shown {
        shown := id;
      }
      var attrs := ReadAttributes(node);
      if attrs.Err? {
        return Err(attrs.error);
      }
      var metadata := [("id", VStr(id)), ("label", VStr(shown))];
      assert metadata[0].0 == "id" && metadata[1].0 == "label";
      var record := CopyListed(metadata, attrs.value, names);
      r := Ok(record);
    }

    /** What `get_<kind>_metadata(id)` answers: `{'id': id, 'label': id}` for
        an id no node carries; otherwise the answer for one node carrying it. */
    ghost predicate EntityAnswer(id: string, kind: Option<string>, names: seq<string>, swap: bool,
                                 r: Result<seq<(string, Value)>, PyError>)
      reads onto
    {
      if !Resolves(onto.graph, id) then r == Ok(NotFound(id))
      else exists node :: Carries(onto.graph, node, id) && FoundAnswer(id, node, kind, names, swap, r)
    }

    /** The answer for the node found: the same minimal record when it is not
        typed as `kind`, else its record, or the error reading its attributes. */
    ghost predicate FoundAnswer(id: string, node: Term, kind: Option<string>, names: seq<string>, swap: bool,
                                r: Result<seq<(string, Value)>, PyError>)
      reads onto
    {
      if kind.Some? && Triple(node, RdfType, Sos(kind.value)) !in onto.graph then r == Ok(NotFound(id))
      else (r.Err? <==> IriAttribute(node)) && (r.Ok? ==> RecordRead(id, node, names, swap, r.value))
    }

    /** The shared body of `get_discipline_metadata`, `get_process_metadata`
        and `get_repo_metadata`. */
    method EntityMetadata(id: string, kind: Option<string>, names: seq<string>, swap: bool)
      returns (r: Result<seq<(string, Value)>, PyError>)
      ensures EntityAnswer(id, kind, names, swap, r)
    {
      var found := onto.FindById(SosId, id);
      if found.None? {
        return Ok(NotFound(id));
      }
      var node := found.value;
      assert Carries(onto.graph, node, id);
      if kind.Some? && Triple(node, RdfType, Sos(kind.value)) !in onto.graph {
        return Ok(NotFound(id));
      }
      r := ReadRecord(id, node, names, swap);
    }

    /** `get_discipline_metadata(id)`: the node must be a `SoSDiscipline`. */
    method GetDisciplineMetadata(id: string) returns (r: Result<seq<(string, Value)>, PyError>)
      ensures EntityAnswer(id, Some("SoSDiscipline"), DisciplineAttributeList, true, r)
    {
      r := EntityMetadata(id, Some("SoSDiscipline"), DisciplineAttributeList, true);
    }

    /** `get_process_metadata(id)`: the node must be a `SoSProcess`. */
    method GetProcessMetadata(id: string) returns (r: Result<seq<(string, Value)>, PyError>)
      ensures EntityAnswer(id, Some("SoSProcess"), ProcessAttributeList, true, r)
    {
      r := EntityMetadata(id, Some("SoSProcess"), ProcessAttributeList, true);
    }

    /** `get_repo_metadata(id)`: the node must be a `SoSProcessRepository`. */
    method GetRepoMetadata(id: string) returns (r: Result<seq<(string, Value)>, PyError>)
      ensures EntityAnswer(id, Some("SoSProcessRepository"), RepositoryAttributeList, true, r)
    {
      r := EntityMetadata(id, Some("SoSProcessRepository"), RepositoryAttributeList, true);
    }

    /** `u` is a usage of the parameter node `n`: `(u, SOS.instanceOf, n)`. */
    ghost predicate UsageOf(u: Term, n: Term)
      reads onto
    {
      Triple(u, InstanceOf, n) in onto.graph
    }

    /** `v` is a kept `id` attribute of the node `u`. */
    ghost predicate IdAttribute(u: Term, v: Value)
      reads onto
    {
      exists t :: t in onto.graph && t.s == u && Contributes(t, attributeLabels) && attributeLabels[t.p] == "id"
                  && t.o.value == v
    }

    /** The node `u` has a kept `id` attribute. */
    ghost predicate HasIdAttribute(u: Term)
      reads onto
    {
      exists t :: t in onto.graph && t.s == u && Contributes(t, attributeLabels) && attributeLabels[t.p] == "id"
    }

    /** `ids` are the `id` attributes of distinct usages `from` of `n`, one
        for every usage of `n` that has one. */
    ghost predicate UsageIdsRead(n: Term, ids: seq<Value>, from: seq<Term>)
      reads onto
    {
      |ids| == |from|
      && (forall i :: 0 <= i < |from| ==> UsageOf(from[i], n) && IdAttribute(from[i], ids[i]))
      && (forall i, j :: 0 <= i < j < |from| ==> from[i] != from[j])
      && (forall u :: UsageOf(u, n) && HasIdAttribute(u) ==> u in from)
    }

    /** What the attributes read for `u` say about its `id`. */
    lemma IdOfAttributes(u: Term, attrs: seq<(string, Value)>)
      requires AttributesRead(u, attrs)
      ensures Get(attrs, "id").Some? ==> Get(attrs, "id").value != VNone && IdAttribute(u, Get(attrs, "id").value)
      ensures HasIdAttribute(u) ==> Get(attrs, "id").Some?
    {
      var all := SubjectTriples(onto.graph, u);
      if Get(attrs, "id").Some? {
        assert Explained(attrs, "id", TermText(u), onto.labelOf(onto.graph, u), all, attributeLabels);
      }
      if HasIdAttribute(u) {
        var t :| t in onto.graph && t.s == u && Contributes(t, attributeLabels) && attributeLabels[t.p] == "id";
        assert t in all;
      }
    }

    /** The `id` attributes of the usages of the parameter node `n`, in the
        order the graph lists its `instanceOf` subjects; `any` says whether
        there is a usage at all. */
    method UsageIds(n: Term) returns (r: Result<seq<Value>, PyError>, any: bool, ghost from: seq<Term>)
      ensures any <==> exists u :: UsageOf(u, n)
      ensures r.Err? <==> exists u :: UsageOf(u, n) && IriAttribute(u)
      ensures r.Ok? ==> UsageIdsRead(n, r.value, from)
    {
      var usages := UsagesOf(n);
      any := usages != {};
      if any {
        var u :| u in usages;
        assert UsageOf(u, n);
      }
      var todo := usages;
      var ids: seq<Value> := [];
      from := [];
      while todo != {}
        invariant forall u :: u in usages <==> UsageOf(u, n)
        invariant any <==> exists u :: UsageOf(u, n)
        invariant IdsSoFar(n, usages, todo, ids, from)
        decreases |todo|
      {
        var u :| u in todo;
        var attrs := ReadAttributes(u);
        if attrs.Err? {
          assert UsageOf(u, n) && IriAttribute(u);
          return Err(attrs.error), any, from;
        }
        IdsStep(n, usages, todo, ids, from, u, attrs.value);
        var id := Get(attrs.value, "id");
        if id.Some? && id.value != VNone {
          ids := ids + [id.value];
          from := from + [u];
        }
        todo := todo - {u};
      }
      r := Ok(ids);
    }

    /** The subjects of the `instanceOf` triples whose object is `n`. */
    method UsagesOf(n: Term) returns (usages: set<Term>)
      ensures forall u :: u in usages <==> UsageOf(u, n)
    {
      usages := set t | t in onto.graph && t.p == InstanceOf && t.o == n :: t.s;
      forall u | UsageOf(u, n) ensures u in usages {
        var t := Triple(u, InstanceOf, n);
        assert t in onto.graph;
      }
    }

    /** The usages of `n` read so far (those of `usages` not in `todo`): none
        raised, and each that has an id gave it, once. */
    ghost predicate IdsSoFar(n: Term, usages: set<Term>, todo: set<Term>, ids: seq<Value>, from: seq<Term>)
      reads onto
    {
      todo <= usages && |ids| == |from|
      && (forall i :: 0 <= i < |from| ==> UsageOf(from[i], n) && IdAttribute(from[i], ids[i]) && from[i] !in todo)
      && (forall i, j :: 0 <= i < j < |from| ==> from[i] != from[j])
      && (forall u :: u in usages && u !in todo && HasIdAttribute(u) ==> u in from)
      && (forall u :: u in usages && u !in todo ==> !IriAttribute(u))
    }

    lemma IdsStep(n: Term, usages: set<Term>, todo: set<Term>, ids: seq<Value>, from: seq<Term>, u: Term,
                  attrs: seq<(string, Value)>)
      requires IdsSoFar(n, usages, todo, ids, from) && u in todo && UsageOf(u, n)
      requires AttributesRead(u, attrs) && !IriAttribute(u)
      ensures var id := Get(attrs, "id");
              var kept := id.Some? && id.value != VNone;
              IdsSoFar(n, usages, todo - {u}, if kept then ids + [id.value] else ids, if kept then from + [u] else from)
    {
      IdOfAttributes(u, attrs);
    }

    /** What `get_parameter_metadata(id)` answers: `{'id': id, 'label': id}`
        for an id no node carries; otherwise the answer for one node carrying
        it, whatever its class. */
    ghost predicate ParameterAnswer(id: string, r: Result<seq<(string, Value)>, PyError>)
      reads onto
    {
      if !Resolves(onto.graph, id) then r == Ok(NotFound(id))
      else exists node :: Carries(onto.graph, node, id) && ParameterFound(id, node, r)
    }

    /** The record of the parameter node: its label as is, the listed
        attributes, then `parameterUsagesIDs` when the node has usages.  It
        raises when an attribute of the node or of a usage is an IRI. */
    ghost predicate ParameterFound(id: string, node: Term, r: Result<seq<(string, Value)>, PyError>)
      reads onto
    {
      (r.Err? <==> IriAttribute(node) || exists u :: UsageOf(u, node) && IriAttribute(u))
      && (r.Ok? ==>
            exists record, ids, from ::
              RecordRead(id, node, ParameterAttributeList, false, record) && UsageIdsRead(node, ids, from)
              && r.value == if (exists u :: UsageOf(u, node)) then Set(record, "parameterUsagesIDs", VList(ids)) else record)
    }

    /** `get_parameter_metadata(id)`. */
    method GetParameterMetadata(id: string) returns (r: Result<seq<(string, Value)>, PyError>)
      ensures ParameterAnswer(id, r)
      ensures r.Ok? ==> UniqueKeys(r.value)
    {
      var found := onto.FindById(SosId, id);
      if found.None? {
        return Ok(NotFound(id));
      }
      var node := found.value;
      assert Carries(onto.graph, node, id);
      var record := ReadRecord(id, node, ParameterAttributeList, false);
      if record.Err? {
        return Err(record.error);
      }
      var ids, any, from := UsageIds(node);
      if ids.Err? {
        return Err(ids.error);
      }
      var answer := record.value;
      if any {
        SetUnique(record.value, "parameterUsagesIDs", VList(ids.value));
        answer := Set(record.value, "parameterUsagesIDs", VList(ids.value));
      }
      r := Ok(answer);
      ParameterFoundIntro(id, node, record.value, ids.value, from, any, answer);
    }

    /** The witnesses of `ParameterFound` when nothing raised. */
    lemma ParameterFoundIntro(id: string, node: Term, record: seq<(string, Value)>, ids: seq<Value>, from: seq<Term>,
                              any: bool, answer: seq<(string, Value)>)
      requires RecordRead(id, node, ParameterAttributeList, false, record) && UsageIdsRead(node, ids, from)
      requires !IriAttribute(node) && !exists u :: UsageOf(u, node) && IriAttribute(u)
      requires any <==> exists u :: UsageOf(u, node)
      requires answer == if any then Set(record, "parameterUsagesIDs", VList(ids)) else record
      ensures ParameterFound(id, node, Ok(answer))
    {
    }

    /** `v` may be what `get_object_values_dict(subject, valuesDict)` gives. */
    ghost predicate ValuesRead(subject: Term, valuesDict: seq<(string, Option<Term>)>, values: seq<(string, Value)>)
      reads onto
    {
      |values| == |IriEntries(valuesDict)|
      && forall i :: 0 <= i < |values| ==>
           values[i].0 == IriEntries(valuesDict)[i].0 && ObjectValueOf(onto.graph, subject, IriEntries(valuesDict)[i].1, values[i].1)
    }

    /** Some key of `valuesDict` names a predicate under which `subject` has an
        IRI object, which `get_object_values_dict` may pick and fail on. */
    ghost predicate ValuesIri(subject: Term, valuesDict: seq<(string, Option<Term>)>)
      reads onto
    {
      exists i, t :: 0 <= i < |IriEntries(valuesDict)| && t in onto.graph && t.s == subject
        && t.p == IriEntries(valuesDict)[i].1 && t.o.IRI?
    }

    /** What `get_parameter_usage_metadata(id)` answers: `{'id': id}` for an
        id no node carries, or a node that is not a `Parameter_Usage`. */
    ghost predicate UsageAnswer(id: string, r: Result<seq<(string, Value)>, PyError>)
      reads onto
    {
      if !Resolves(onto.graph, id) then r == Ok([("id", VStr(id))])
      else exists node :: Carries(onto.graph, node, id) && UsageFound(id, node, r)
    }

    /** For a usage node: `{'id': id}` updated with the parameter's values
        (its id, definition, definition source and ACL tag), uri and label,
        then with the usage's own values.  A usage without parameter raises
        (`list(...)[0]` of nothing); otherwise it raises only when the usage
        or its parameter has an IRI object under a listed predicate. */
    ghost predicate UsageFound(id: string, node: Term, r: Result<seq<(string, Value)>, PyError>)
      reads onto
    {
      if Triple(node, RdfType, Sos("Parameter_Usage")) !in onto.graph then r == Ok([("id", VStr(id))])
      else
        ((!exists p :: UsageOf(node, p)) ==> r.Err?)
        && (r.Err? ==> (!exists p :: UsageOf(node, p)) || ValuesIri(node, UsageInfo)
                       || exists p :: UsageOf(node, p) && ValuesIri(p, ParameterInfo))
        && (r.Ok? ==>
              exists usageValues, parameter, parameterValues ::
                ValuesRead(node, UsageInfo, usageValues) && UsageOf(node, parameter)
                && ValuesRead(parameter, ParameterInfo, parameterValues)
                && r.value == Update(Update([("id", VStr(id))], ParameterEntries(parameter, parameterValues)), usageValues))
    }

    /** `parameter_info` after the uri and the label are set. */
    function ParameterEntries(parameter: Term, parameterValues: seq<(string, Value)>): seq<(string, Value)>
      reads onto
    {
      parameterValues + [("uri", VStr(TermText(parameter))), ("label", VStr(onto.labelOf(onto.graph, parameter)))]
    }

    /** `get_parameter_usage_metadata(id)`. */
    method GetParameterUsageMetadata(id: string) returns (r: Result<seq<(string, Value)>, PyError>)
      ensures UsageAnswer(id, r)
    {
      var found := onto.FindById(SosId, id);
      if found.None? {
        return Ok([("id", VStr(id))]);
      }
      var node := found.value;
      assert Carries(onto.graph, node, id);
      if Triple(node, RdfType, Sos("Parameter_Usage")) !in onto.graph {
        r := Ok([("id", VStr(id))]);
        assert UsageFound(id, node, r);
        return;
      }
      var usageValues := onto.GetObjectValuesDict(node, UsageInfo);
      if usageValues.Err? {
        r := Err(usageValues.error);
        assert UsageFound(id, node, r);
        return;
      }
      var parameters := set t | t in onto.graph && t.s == node && t.p == InstanceOf :: t.o;
      forall p | UsageOf(node, p) ensures p in parameters {
        assert Triple(node, InstanceOf, p) in onto.graph;
      }
      if parameters == {} {
        r := Err(IndexError("list index out of range"));
        return;
      }
      var parameter :| parameter in parameters;
      assert UsageOf(node, parameter) by {
        var t :| t in onto.graph && t.s == node && t.p == InstanceOf && t.o == parameter;
        assert t == Triple(node, InstanceOf, parameter);
      }
      var parameterValues := onto.GetObjectValuesDict(parameter, ParameterInfo);
      if parameterValues.Err? {
        r := Err(parameterValues.error);
        assert ValuesIri(parameter, ParameterInfo);
        assert UsageFound(id, node, r);
        return;
      }
      var entries := parameterValues.value + [("uri", VStr(TermText(parameter))), ("label", VStr(onto.labelOf(onto.graph, parameter)))];
      var answer := Update(Update([("id", VStr(id))], entries), usageValues.value);
      r := Ok(answer);
      UsageFoundIntro(id, node, usageValues.value, parameter, parameterValues.value, answer);
    }

    /** The witnesses of `UsageFound` when nothing raised. */
    lemma UsageFoundIntro(id: string, node: Term, usageValues: seq<(string, Value)>, parameter: Term,
                          parameterValues: seq<(string, Value)>, answer: seq<(string, Value)>)
      requires Triple(node, RdfType, Sos("Parameter_Usage")) in onto.graph
      requires ValuesRead(node, UsageInfo, usageValues) && UsageOf(node, parameter)
      requires ValuesRead(parameter, ParameterInfo, parameterValues)
      requires answer == Update(Update([("id", VStr(id))], ParameterEntries(parameter, parameterValues)), usageValues)
      ensures UsageFound(id, node, Ok(answer))
    {
    }

    /** The answer of `get_metadata` for one id of the request kind `kind`. */
    ghost predicate KindAnswer(kind: string, id: string, r: Result<seq<(string, Value)>, PyError>)
      reads onto
    {
      if kind == "disciplines" then EntityAnswer(id, Some("SoSDiscipline"), DisciplineAttributeList, true, r)
      else if kind == "parameters" then ParameterAnswer(id, r)
      else if kind == "process" then EntityAnswer(id, Some("SoSProcess"), ProcessAttributeList, true, r)
      else EntityAnswer(id, Some("SoSProcessRepository"), RepositoryAttributeList, true, r)
    }

    /** A metadata query raises only over a graph holding an IRI-valued attribute. */
    lemma KindAnswerRaises(kind: string, id: string, r: Result<seq<(string, Value)>, PyError>)
      requires KindAnswer(kind, id, r) && r.Err?
      ensures IriAttributeAnywhere(onto.graph)
    {
      var node :| Carries(onto.graph, node, id) && (if kind == "parameters" then ParameterFound(id, node, r)
                   else FoundAnswer(id, node, Some(if kind == "disciplines" then "SoSDiscipline" else if kind == "process" then "SoSProcess" else "SoSProcessRepository"),
                                    if kind == "disciplines" then DisciplineAttributeList else if kind == "process" then ProcessAttributeList else RepositoryAttributeList,
                                    true, r));
      if IriAttribute(node) {
        var t :| t in onto.graph && t.s == node && t.p in attributeLabels && t.o.IRI?;
      } else {
        var u :| UsageOf(u, node) && IriAttribute(u);
        var t :| t in onto.graph && t.s == u && t.p in attributeLabels && t.o.IRI?;
      }
    }

    /** One id of one request kind. */
    method AnswerOne(kind: string, id: string) returns (r: Result<seq<(string, Value)>, PyError>)
      ensures KindAnswer(kind, id, r)
    {
      if kind == "disciplines" {
        r := GetDisciplineMetadata(id);
      } else if kind == "parameters" {
        r := GetParameterMetadata(id);
      } else if kind == "process" {
        r := GetProcessMetadata(id);
      } else {
        r := GetRepoMetadata(id);
      }
    }

    /** The answers to one request kind: a dict with one entry per distinct
        requested id, each the answer for that id. */
    ghost predicate KindAnswered(kind: string, ids: seq<string>, answers: seq<(string, seq<(string, Value)>)>)
      reads onto
    {
      UniqueKeys(answers) && (forall x :: x in KeySet(answers) <==> x in ids)
      && forall e :: e in answers ==> KindAnswer(kind, e.0, Ok(e.1))
    }

    /** `result[kind] = {}` and the loop over the requested ids. */
    method AnswerKind(kind: string, ids: seq<string>) returns (r: Result<seq<(string, seq<(string, Value)>)>, PyError>)
      ensures r.Ok? ==> KindAnswered(kind, ids, r.value)
      ensures r.Err? ==> IriAttributeAnywhere(onto.graph)
    {
      var answers: seq<(string, seq<(string, Value)>)> := [];
      for j := 0 to |ids|
        invariant KindAnswered(kind, ids[..j], answers)
      {
        var answer := AnswerOne(kind, ids[j]);
        if answer.Err? {
          KindAnswerRaises(kind, ids[j], answer);
          return Err(answer.error);
        }
        SetUnique(answers, ids[j], answer.value);
        SetEntries(answers, ids[j], answer.value);
        TakeOneMore(ids, j);
        answers := Set(answers, ids[j], answer.value);
      }
      assert ids[..|ids|] == ids;
      r := Ok(answers);
    }

    /** What `get_metadata(request)` answers: a key for each request kind
        present, in the order disciplines, parameters, process, repository,
        holding the answers to the ids requested under it. */
    ghost predicate MetadataAnswered(request: Dict<string, seq<string>>, result: seq<(string, seq<(string, seq<(string, Value)>)>)>)
      reads onto
    {
      Keys(result) == AnsweredKinds(request) && AllAnswered(request, result)
    }

    ghost predicate AllAnswered(request: Dict<string, seq<string>>, result: seq<(string, seq<(string, seq<(string, Value)>)>)>)
      reads onto
    {
      forall i :: 0 <= i < |result| ==> HasKey(request, result[i].0) && KindAnswered(result[i].0, Get(request, result[i].0).value, result[i].1)
    }

    lemma MetadataStep(request: Dict<string, seq<string>>, result: seq<(string, seq<(string, seq<(string, Value)>)>)>,
                       kind: string, answers: seq<(string, seq<(string, Value)>)>)
      requires AllAnswered(request, result) && HasKey(request, kind)
      requires KindAnswered(kind, Get(request, kind).value, answers)
      ensures AllAnswered(request, result + [(kind, answers)])
      ensures Keys(result + [(kind, answers)]) == Keys(result) + [kind]
    {
      var next := result + [(kind, answers)];
      forall i | 0 <= i < |next|
        ensures HasKey(request, next[i].0) && KindAnswered(next[i].0, Get(request, next[i].0).value, next[i].1)
      {
        if i < |result| {
          assert next[i] == result[i];
        }
      }
    }

    /** One `if kind in request:` block of `get_metadata`. */
    method AnswerIfRequested(request: Dict<string, seq<string>>, kind: string,
                             result: seq<(string, seq<(string, seq<(string, Value)>)>)>)
      returns (r: Result<seq<(string, seq<(string, seq<(string, Value)>)>)>, PyError>)
      requires AllAnswered(request, result)
      ensures r.Ok? ==> AllAnswered(request, r.value)
                        && Keys(r.value) == Keys(result) + (if HasKey(request, kind) then [kind] else [])
      ensures r.Err? ==> IriAttributeAnywhere(onto.graph)
    {
      if !HasKey(request, kind) {
        return Ok(result);
      }
      var answers := AnswerKind(kind, Get(request, kind).value);
      if answers.Err? {
        return Err(answers.error);
      }
      MetadataStep(request, result, kind, answers.value);
      r := Ok(result + [(kind, answers.value)]);
    }

    /** `get_metadata(request)`. */
    method GetMetadata(request: Dict<string, seq<string>>)
      returns (r: Result<seq<(string, seq<(string, seq<(string, Value)>)>)>, PyError>)
      ensures r.Ok? ==> MetadataAnswered(request, r.value)
      ensures r.Err? ==> IriAttributeAnywhere(onto.graph)
    {
      var result: seq<(string, seq<(string, seq<(string, Value)>)>)> := [];
      assert Keys(result) == [];
      var step := AnswerIfRequested(request, "disciplines", result);
      if step.Err? {
        return Err(step.error);
      }
      result := step.value;
      assert Keys(result) == if HasKey(request, "disciplines") then ["disciplines"] else [];
      step := AnswerIfRequested(request, "parameters", result);
      if step.Err? {
        return Err(step.error);
      }
      result := step.value;
      step := AnswerIfRequested(request, "process", result);
      if step.Err? {
        return Err(step.error);
      }
      result := step.value;
      step := AnswerIfRequested(request, "repository", result);
      if step.Err? {
        return Err(step.error);
      }
      result := step.value;
      r := Ok(result);
    }

    // ---------------------------------------------------------------- the N2 diagram

    /** A coupling node for the parameter `name`: the parameter metadata of
        its last dotted segment, the label suffixed with the instance label
        when the walk is below a scatter node. */
    ghost predicate CouplingNodeRead(name: string, scatter: bool, node: Dict<string, Value>)
      reads onto
    {
      exists md :: ParameterAnswer(PyStr.LastSegment(name, "."), Ok(md))
                   && node == CouplingNode(name, md, if scatter then InstanceLabel(name) else None)
    }

    /** `nodes` is `before` followed by one coupling node per name of
        `names`, in order, and every node has an id. */
    ghost predicate CouplingNodesAdded(before: seq<Dict<string, Value>>, names: seq<string>, scatter: bool,
                                       nodes: seq<Dict<string, Value>>)
      reads onto
    {
      |nodes| == |before| + |names| && nodes[..|before|] == before
      && (forall i :: 0 <= i < |names| ==> CouplingNodeRead(names[i], scatter, nodes[|before| + i]))
      && forall i :: 0 <= i < |nodes| ==> HasKey(nodes[i], "id")
    }

    /** `get_treeview_coupling_parameters(items, parameterNodes, _, scatter)`:
        one node for each coupling entry whose name no node had when the call
        started, and the number of entries that are not couplings. */
    method GetTreeviewCouplingParameters(items: seq<(string, bool)>, parameterNodes: seq<Dict<string, Value>>,
                                         scatter: bool)
      returns (privateCount: nat, nodes: seq<Dict<string, Value>>, raised: Option<PyError>)
      requires forall i :: 0 <= i < |parameterNodes| ==> HasKey(parameterNodes[i], "id")
      ensures raised.Some? ==> IriAttributeAnywhere(onto.graph)
      ensures raised.None? ==> privateCount == PrivateCount(items)
                               && CouplingNodesAdded(parameterNodes, NewCouplings(items, NodeIds(parameterNodes)), scatter, nodes)
    {
      var known := NodeIds(parameterNodes);
      privateCount := 0;
      nodes := parameterNodes;
      raised := None;
      assert nodes[..|parameterNodes|] == parameterNodes;
      for i := 0 to |items|
        invariant privateCount == PrivateCount(items[..i])
        invariant CouplingNodesAdded(parameterNodes, NewCouplings(items[..i], known), scatter, nodes)
      {
        var step := CouplingItem(items, i, known, parameterNodes, scatter, nodes);
        if step.Err? {
          return privateCount, nodes, Some(step.error);
        }
        nodes := step.value;
        if !items[i].1 {
          privateCount := privateCount + 1;
        }
        ItemsStep(items, i, known);
      }
      assert items[..|items|] == items;
    }

    /** The body of the loop for the entry `items[i]`: a coupling whose name
        no node had at the start gets its node. */
    method CouplingItem(items: seq<(string, bool)>, i: nat, known: set<Value>,
                        parameterNodes: seq<Dict<string, Value>>, scatter: bool, nodes: seq<Dict<string, Value>>)
      returns (r: Result<seq<Dict<string, Value>>, PyError>)
      requires i < |items|
      requires CouplingNodesAdded(parameterNodes, NewCouplings(items[..i], known), scatter, nodes)
      ensures r.Err? ==> IriAttributeAnywhere(onto.graph)
      ensures r.Ok? ==> CouplingNodesAdded(parameterNodes, NewCouplings(items[..i + 1], known), scatter, r.value)
    {
      ItemsStep(items, i, known);
      var name := items[i].0;
      if items[i].1 && VStr(name) !in known {
        r := AddCouplingNode(parameterNodes, NewCouplings(items[..i], known), scatter, nodes, name);
      } else {
        assert NewCouplings(items[..i + 1], known) == NewCouplings(items[..i], known);
        r := Ok(nodes);
      }
    }

    /** The body of the loop for one new coupling `name`: read the metadata
        of its parameter and append its node. */
    method AddCouplingNode(before: seq<Dict<string, Value>>, names: seq<string>, scatter: bool,
                           nodes: seq<Dict<string, Value>>, name: string)
      returns (r: Result<seq<Dict<string, Value>>, PyError>)
      requires CouplingNodesAdded(before, names, scatter, nodes)
      ensures r.Err? ==> IriAttributeAnywhere(onto.graph)
      ensures r.Ok? ==> CouplingNodesAdded(before, names + [name], scatter, r.value)
    {
      var id := PyStr.LastSegment(name, ".");
      var md := GetParameterMetadata(id);
      if md.Err? {
        KindAnswerRaises("parameters", id, md);
        return Err(md.error);
      }
      var instance := if scatter then InstanceLabel(name) else None;
      var node := BuildCouplingNode(name, md.value, instance);
      CouplingNodeId(name, md.value, instance);
      CouplingNodesStep(before, names, scatter, nodes, name, md.value, node);
      r := Ok(nodes + [node]);
    }

    /** `get_treeview_nodes_and_links(node, treeNodes, parent, parameterNodes,
        links, level, scatter)`: a record for `node` when it is shown, with
        the coupling nodes of its parameters, then each visited child's link
        and walk in turn.  The lists come back extended instead of being
        appended to in place. */
    method GetTreeviewNodesAndLinks(node: TreeNode, treeNodes: seq<Dict<string, Value>>, parent: string,
                                    parameterNodes: seq<Dict<string, Value>>, links: seq<Dict<string, Value>>,
                                    level: int, scatter: bool)
      returns (treeNodes': seq<Dict<string, Value>>, parameterNodes': seq<Dict<string, Value>>,
               links': seq<Dict<string, Value>>, raised: Option<PyError>)
      requires forall i :: 0 <= i < |parameterNodes| ==> HasKey(parameterNodes[i], "id")
      ensures raised.Some? ==> IriAttributeAnywhere(onto.graph)
      ensures raised.None? ==> Walked(treeNodes, treeNodes', WalkNodes(node, parent, level))
                               && links' == links + LinkRecords(WalkLinks(node, parent))
                               && ParametersKept(parameterNodes, parameterNodes')
      ensures raised.None? ==> CouplingIdsWalked(parameterNodes, WalkNodes(node, parent, level), parameterNodes')
      decreases node, 2
    {
      treeNodes', parameterNodes', links', raised := treeNodes, parameterNodes, links, None;
      var scatterBelow := scatter;
      assert treeNodes'[..|treeNodes|] == treeNodes && treeNodes'[|treeNodes|..] == [];
      assert parameterNodes'[..|parameterNodes|] == parameterNodes;
      if Shown(node) {
        if node.nodeType in ScatterTypes {
          scatterBelow := true;
        }
        treeNodes', parameterNodes', raised := AddTreeRecord(Placed(node, parent, level), treeNodes, parameterNodes, scatterBelow);
        if raised.Some? {
          return;
        }
        CouplingIdsOne(parameterNodes, Placed(node, parent, level), scatterBelow, parameterNodes');
      }
      ghost var own := if Shown(node) then [Placed(node, parent, level)] else [];
      if !Shown(node) {
        CouplingIdsNone(parameterNodes);
      }
      assert Walked(treeNodes, treeNodes', own);
      ghost var middle := treeNodes';
      ghost var paramsMiddle := parameterNodes';
      treeNodes', parameterNodes', links', raised :=
        WalkTreeviewChildren(node, treeNodes', ParentBelow(node, parent), parameterNodes', links', LevelBelow(node, level),
                             scatterBelow);
      if raised.None? {
        WalkedTrans(treeNodes, middle, treeNodes', own,
                    WalkChildren(node, VisitedCount(node), ParentBelow(node, parent), LevelBelow(node, level)));
        ParametersKeptTrans(parameterNodes, paramsMiddle, parameterNodes');
        CouplingIdsTrans(parameterNodes, own, paramsMiddle,
                         WalkChildren(node, VisitedCount(node), ParentBelow(node, parent), LevelBelow(node, level)),
                         parameterNodes');
      }
    }

    /** `get_n2_matrix(treeview)`: the walk from the root with no parent at
        level 0.  There is one `PART_OF` link per tree node but the root's. */
    method GetN2Matrix(treeview: TreeNode)
      returns (treeNodes: seq<Dict<string, Value>>, parameterNodes: seq<Dict<string, Value>>,
               links: seq<Dict<string, Value>>, raised: Option<PyError>)
      ensures raised.Some? ==> IriAttributeAnywhere(onto.graph)
      ensures raised.None? ==> RecordsFit(treeNodes, WalkNodes(treeview, "", 0))
                               && links == LinkRecords(WalkLinks(treeview, ""))
                               && |treeNodes| == |links| + (if Shown(treeview) then 1 else 0)
                               && forall i :: 0 <= i < |parameterNodes| ==> HasKey(parameterNodes[i], "id")
      ensures raised.None? ==> NodeIds(parameterNodes) == CouplingNames(WalkNodes(treeview, "", 0))
      ensures raised.None? ==> IdsDistinct(parameterNodes)
    {
      treeNodes, parameterNodes, links, raised := GetTreeviewNodesAndLinks(treeview, [], "", [], [], 0, false);
      if raised.None? {
        assert treeNodes[0..] == treeNodes;
        WalkCounts(treeview, "", 0);
        CouplingIdsFromNone(WalkNodes(treeview, "", 0), parameterNodes);
      }
    }

    /** The block of a shown node: its coupling nodes, its discipline
        metadata and its tree record. */
    method AddTreeRecord(x: Placed, treeNodes: seq<Dict<string, Value>>, parameterNodes: seq<Dict<string, Value>>,
                         scatter: bool)
      returns (treeNodes': seq<Dict<string, Value>>, parameterNodes': seq<Dict<string, Value>>, raised: Option<PyError>)
      requires forall i :: 0 <= i < |parameterNodes| ==> HasKey(parameterNodes[i], "id")
      ensures raised.Some? ==> IriAttributeAnywhere(onto.graph)
      ensures raised.None? ==> Walked(treeNodes, treeNodes', [x]) && ParametersKept(parameterNodes, parameterNodes')
      ensures raised.None? ==>
        CouplingNodesAdded(parameterNodes, NewCouplings(x.node.discData, NodeIds(parameterNodes)), scatter, parameterNodes')
    {
      treeNodes', parameterNodes' := treeNodes, parameterNodes;
      var node := x.node;
      var privateCount, coupled, err := GetTreeviewCouplingParameters(node.discData, parameterNodes, scatter);
      if err.Some? {
        return treeNodes', parameterNodes', err;
      }
      CouplingNodesKept(parameterNodes, NewCouplings(node.discData, NodeIds(parameterNodes)), scatter, coupled);
      parameterNodes' := coupled;
      var record := DisciplineTreeRecord(x, privateCount);
      if record.Err? {
        return treeNodes', parameterNodes', Some(record.error);
      }
      WalkedOne(treeNodes, record.value, x);
      treeNodes' := treeNodes + [record.value];
      raised := None;
    }

    /** The tree record of a shown node merges in the discipline metadata of
        its model. */
    ghost predicate TreeRecordRead(x: Placed, record: Dict<string, Value>)
      reads onto
    {
      exists extra :: EntityAnswer(x.node.modelPath, Some("SoSDiscipline"), DisciplineAttributeList, true, Ok(extra))
                      && record == TreeRecord(x, PrivateCount(x.node.discData), ChildrenList(x.node), extra)
    }

    /** `modelMetadata` of a shown node: the node's own fields, its children
        list and the label and definition of its discipline. */
    method DisciplineTreeRecord(x: Placed, privateCount: nat) returns (r: Result<Dict<string, Value>, PyError>)
      requires privateCount == PrivateCount(x.node.discData)
      ensures r.Err? ==> IriAttributeAnywhere(onto.graph)
      ensures r.Ok? ==> NodeRecordFits(r.value, x) && TreeRecordRead(x, r.value)
    {
      var extra := GetDisciplineMetadata(x.node.modelPath);
      if extra.Err? {
        KindAnswerRaises("disciplines", x.node.modelPath, extra);
        return Err(extra.error);
      }
      var children := GetChildrenList(x.node);
      var record := BuildTreeRecord(x, privateCount, children, extra.value);
      TreeRecordFits(x, extra.value);
      TreeRecordUnique(x, privateCount, children, extra.value);
      r := Ok(record);
    }

    lemma CouplingNodesKept(before: seq<Dict<string, Value>>, names: seq<string>, scatter: bool,
                            nodes: seq<Dict<string, Value>>)
      requires CouplingNodesAdded(before, names, scatter, nodes)
      ensures ParametersKept(before, nodes)
    {
    }

    /** The `if 'children' in treeviewDict` block: for each child, its link
        when it is shown, then its walk, stopping after the first shown child
        of a multi-scenario node. */
    method WalkTreeviewChildren(node: TreeNode, treeNodes: seq<Dict<string, Value>>, parent: string,
                                parameterNodes: seq<Dict<string, Value>>, links: seq<Dict<string, Value>>,
                                level: int, scatter: bool)
      returns (treeNodes': seq<Dict<string, Value>>, parameterNodes': seq<Dict<string, Value>>,
               links': seq<Dict<string, Value>>, raised: Option<PyError>)
      requires forall i :: 0 <= i < |parameterNodes| ==> HasKey(parameterNodes[i], "id")
      ensures raised.Some? ==> IriAttributeAnywhere(onto.graph)
      ensures raised.None? ==> Walked(treeNodes, treeNodes', WalkChildren(node, VisitedCount(node), parent, level))
                               && links' == links + LinkRecords(LinkChildren(node, VisitedCount(node), parent))
                               && ParametersKept(parameterNodes, parameterNodes')
      ensures raised.None? ==> CouplingIdsWalked(parameterNodes, WalkChildren(node, VisitedCount(node), parent, level), parameterNodes')
      decreases node, 1
    {
      treeNodes', parameterNodes', links', raised := treeNodes, parameterNodes, links, None;
      assert parameterNodes'[..|parameterNodes|] == parameterNodes;
      WalkedNone(treeNodes);
      CouplingIdsNone(parameterNodes);
      var children := ChildrenOf(node);
      var multi := node.nodeType in MultiScenarioTypes;
      var i := 0;
      while i < |children|
        invariant i <= VisitedCount(node)
        invariant i < |children| ==> i < VisitedCount(node)
        invariant ChildrenWalked(node, i, parent, level, treeNodes, links, parameterNodes, treeNodes', links', parameterNodes')
        invariant CouplingIdsWalked(parameterNodes, WalkChildren(node, i, parent, level), parameterNodes')
        invariant raised.None?
        decreases |children| - i
      {
        var child := children[i];
        VisitedStep(node, i);
        treeNodes', parameterNodes', links', raised :=
          WalkChild(node, i, parent, level, scatter, treeNodes, links, parameterNodes, treeNodes', parameterNodes', links');
        if raised.Some? {
          return;
        }
        i := i + 1;
        if multi && Shown(child) {
          break;
        }
      }
      assert i == VisitedCount(node);
    }

    /** One turn of the loop over the children: the link of `node.children[i]`
        when it is shown, then its walk. */
    method WalkChild(node: TreeNode, i: nat, parent: string, level: int, scatter: bool,
                     ghost treeNodes: seq<Dict<string, Value>>, ghost links: seq<Dict<string, Value>>,
                     ghost parameterNodes: seq<Dict<string, Value>>, tree: seq<Dict<string, Value>>,
                     params: seq<Dict<string, Value>>, before: seq<Dict<string, Value>>)
      returns (tree': seq<Dict<string, Value>>, params': seq<Dict<string, Value>>, after: seq<Dict<string, Value>>,
               raised: Option<PyError>)
      requires i < |ChildrenOf(node)|
      requires ChildrenWalked(node, i, parent, level, treeNodes, links, parameterNodes, tree, before, params)
      requires CouplingIdsWalked(parameterNodes, WalkChildren(node, i, parent, level), params)
      ensures raised.Some? ==> IriAttributeAnywhere(onto.graph)
      ensures raised.None? ==> ChildrenWalked(node, i + 1, parent, level, treeNodes, links, parameterNodes, tree', after, params')
      ensures raised.None? ==> CouplingIdsWalked(parameterNodes, WalkChildren(node, i + 1, parent, level), params')
      decreases node, 0
    {
      var child := node.children[i];
      var mid := before + if Shown(child) then [LinkRecord(child.fullNamespace, parent)] else [];
      tree', params', after, raised := GetTreeviewNodesAndLinks(child, tree, parent, params, mid, level, scatter);
      if raised.None? {
        ChildStep(node, i, parent, level, treeNodes, links, parameterNodes, tree, before, params, mid, tree', after, params');
        CouplingsChildStep(node, i, parent, level, parameterNodes, params, params');
      }
    }

    lemma ChildStep(node: TreeNode, i: nat, parent: string, level: int,
                    treeNodes: seq<Dict<string, Value>>, links: seq<Dict<string, Value>>,
                    parameterNodes: seq<Dict<string, Value>>, tree: seq<Dict<string, Value>>,
                    before: seq<Dict<string, Value>>, params: seq<Dict<string, Value>>, mid: seq<Dict<string, Value>>,
                    tree': seq<Dict<string, Value>>, after: seq<Dict<string, Value>>, params': seq<Dict<string, Value>>)
      requires i < |ChildrenOf(node)|
      requires ChildrenWalked(node, i, parent, level, treeNodes, links, parameterNodes, tree, before, params)
      requires mid == before + (if Shown(node.children[i]) then [LinkRecord(node.children[i].fullNamespace, parent)] else [])
      requires Walked(tree, tree', WalkNodes(node.children[i], parent, level))
      requires after == mid + LinkRecords(WalkLinks(node.children[i], parent))
      requires ParametersKept(params, params')
      ensures ChildrenWalked(node, i + 1, parent, level, treeNodes, links, parameterNodes, tree', after, params')
    {
      var child := node.children[i];
      LinksStep(node, i, parent, links, before, mid, after);
      assert WalkChildren(node, i + 1, parent, level) == WalkChildren(node, i, parent, level) + WalkNodes(child, parent, level);
      WalkedTrans(treeNodes, tree, tree', WalkChildren(node, i, parent, level), WalkNodes(child, parent, level));
      ParametersKeptTrans(parameterNodes, params, params');
    }

    lemma ParametersKeptTrans(a: seq<Dict<string, Value>>, b: seq<Dict<string, Value>>, c: seq<Dict<string, Value>>)
      requires ParametersKept(a, b) && ParametersKept(b, c)
      ensures ParametersKept(a, c)
    {
      assert c[..|a|] == b[..|a|];
    }

    lemma ItemsStep(items: seq<(string, bool)>, i: nat, known: set<Value>)
      requires i < |items|
      ensures PrivateCount(items[..i + 1]) == PrivateCount(items[..i]) + if items[i].1 then 0 else 1
      ensures NewCouplings(items[..i + 1], known)
              == NewCouplings(items[..i], known) + if items[i].1 && VStr(items[i].0) !in known then [items[i].0] else []
    {
      assert items[..i + 1][..i] == items[..i];
    }

    lemma CouplingNodesStep(before: seq<Dict<string, Value>>, names: seq<string>, scatter: bool,
                            nodes: seq<Dict<string, Value>>, name: string, md: seq<(string, Value)>,
                            node: Dict<string, Value>)
      requires CouplingNodesAdded(before, names, scatter, nodes)
      requires ParameterAnswer(PyStr.LastSegment(name, "."), Ok(md))
      requires node == CouplingNode(name, md, if scatter then InstanceLabel(name) else None)
      requires HasKey(node, "id")
      ensures CouplingNodesAdded(before, names + [name], scatter, nodes + [node])
    {
      var after := nodes + [node];
      assert after[..|before|] == nodes[..|before|];
      forall i | 0 <= i < |names| + 1
        ensures CouplingNodeRead((names + [name])[i], scatter, after[|before| + i])
      {
        if i < |names| {
          assert after[|before| + i] == nodes[|before| + i];
        }
      }
    }

    /** The coupling nodes one shown node adds are a walk of that one node. */
    lemma CouplingIdsOne(before: seq<Dict<string, Value>>, x: Placed, scatter: bool, after: seq<Dict<string, Value>>)
      requires CouplingNodesAdded(before, NewCouplings(x.node.discData, NodeIds(before)), scatter, after)
      ensures CouplingIdsWalked(before, [x], after)
    {
      assert [x][1..] == [];
      CouplingNodesIds(before, x.node.discData, scatter, after);
      if IdsDistinct(before) {
        CouplingNodesDistinct(before, x.node.discData, scatter, after);
      }
    }

    /** Each coupling node is named after its parameter. */
    lemma CouplingNodesNamed(before: seq<Dict<string, Value>>, names: seq<string>, scatter: bool,
                             after: seq<Dict<string, Value>>)
      requires CouplingNodesAdded(before, names, scatter, after)
      ensures forall i :: 0 <= i < |names| ==> Get(after[|before| + i], "id") == Some(VStr(names[i]))
    {
      forall i | 0 <= i < |names| ensures Get(after[|before| + i], "id") == Some(VStr(names[i])) {
        var instance := if scatter then InstanceLabel(names[i]) else None;
        var md :| ParameterAnswer(PyStr.LastSegment(names[i], "."), Ok(md))
                  && after[|before| + i] == CouplingNode(names[i], md, instance);
        CouplingNodeId(names[i], md, instance);
      }
    }

    /** One call adds exactly the names of the node's coupling entries to the ids. */
    lemma CouplingNodesIds(before: seq<Dict<string, Value>>, items: seq<(string, bool)>, scatter: bool,
                           after: seq<Dict<string, Value>>)
      requires CouplingNodesAdded(before, NewCouplings(items, NodeIds(before)), scatter, after)
      ensures NodeIds(after) == NodeIds(before) + ItemCouplings(items)
    {
      CouplingNodesNamed(before, NewCouplings(items, NodeIds(before)), scatter, after);
      NamedAfterIds(before, items, after);
    }

    /** One call on a node whose entries have distinct names repeats no id. */
    lemma CouplingNodesDistinct(before: seq<Dict<string, Value>>, items: seq<(string, bool)>, scatter: bool,
                                after: seq<Dict<string, Value>>)
      requires CouplingNodesAdded(before, NewCouplings(items, NodeIds(before)), scatter, after)
      requires IdsDistinct(before) && UniqueKeys(items)
      ensures IdsDistinct(after)
    {
      CouplingNodesNamed(before, NewCouplings(items, NodeIds(before)), scatter, after);
      NamedAfterDistinct(before, items, after);
    }

    // ---------------------------------------------------------------- the filtered model list

    /** Reading the attributes of `node` raised, so the graph holds an
        IRI-valued attribute. */
    lemma IriAttributeRaises(node: Term)
      requires IriAttribute(node)
      ensures IriAttributeAnywhere(onto.graph)
    {
      var t :| t in onto.graph && t.s == node && t.p in attributeLabels && t.o.IRI?;
    }

    /** `d` is a `SoSDiscipline` node. */
    ghost predicate Discipline(d: Term)
      reads onto
    {
      Triple(d, RdfType, Sos("SoSDiscipline")) in onto.graph
    }

    /** `p` is a `SoSProcess` the discipline `d` is `usedIn`. */
    ghost predicate UsedProcess(d: Term, p: Term)
      reads onto
    {
      Triple(d, UsedIn, p) in onto.graph && Triple(p, RdfType, Sos("SoSProcess")) in onto.graph
    }

    /** `c` is a `CodeRepository` the discipline `d` `belongsTo`. */
    ghost predicate CodeRepositoryOf(d: Term, c: Term)
      reads onto
    {
      Triple(d, BelongsTo, c) in onto.graph && Triple(c, RdfType, Sos("CodeRepository")) in onto.graph
    }

    /** The code repository label of `d`: the label of one of its code
        repositories, `''` when it has none. */
    ghost predicate CodeLabel(d: Term, code: string)
      reads onto
    {
      if exists c :: CodeRepositoryOf(d, c) then exists c :: CodeRepositoryOf(d, c) && code == onto.labelOf(onto.graph, c)
      else code == ""
    }

    /** The loop over the `belongsTo` objects of `d`, stopping at the first
        code repository. */
    method GetCodeRepositoryLabel(d: Term) returns (code: string)
      ensures CodeLabel(d, code)
    {
      var repos := set t | t in onto.graph && t.s == d && t.p == BelongsTo
                           && Triple(t.o, RdfType, Sos("CodeRepository")) in onto.graph :: t.o;
      assert forall c :: c in repos <==> CodeRepositoryOf(d, c) by {
        forall c | CodeRepositoryOf(d, c) ensures c in repos {
          var t := Triple(d, BelongsTo, c);
          assert t in onto.graph;
        }
      }
      if repos == {} {
        code := "";
      } else {
        var c :| c in repos;
        code := onto.labelOf(onto.graph, c);
      }
    }

    /** Some reading of a process `d` is used in authorises `d`. */
    ghost predicate Authorised(linked: Dict<string, seq<string>>, d: Term)
      reads onto
    {
      exists p, attrs :: UsedProcess(d, p) && AttributesRead(p, attrs) && Authorises(attrs, linked)
    }

    /** Every process `d` is used in was read with attributes that do not
        authorise it. */
    ghost predicate Unauthorised(linked: Dict<string, seq<string>>, d: Term)
      reads onto
    {
      forall p :: UsedProcess(d, p) ==> exists attrs :: AttributesRead(p, attrs) && !Authorises(attrs, linked)
    }

    /** The listing of an authorised discipline: its label, its attributes
        with their defaults, its code repository label, and the processes
        filed under their repositories, as many as it counts. */
    ghost predicate RowRead(linked: Dict<string, seq<string>>, d: Term, row: ModelStatus)
      reads onto
    {
      exists attrs, code :: RowFrom(linked, d, row, attrs, code)
    }

    /** `row` lists `d` as read with the attributes `attrs` and the code
        repository label `code`. */
    ghost predicate RowFrom(linked: Dict<string, seq<string>>, d: Term, row: ModelStatus,
                            attrs: seq<(string, Value)>, code: string)
      reads onto
    {
      Authorised(linked, d) && AttributesRead(d, attrs) && CodeLabel(d, code)
      && row == StatusOf(onto.labelOf(onto.graph, d), attrs, code, row.processesUsingModel, row.processesUsingModelList)
      && row.processesUsingModel == Total(row.processesUsingModelList) > 0
      && UniqueKeys(row.processesUsingModelList)
    }

    /** The loop over the names `linked` lists under the process's
        repository: each one that makes the process id files the process
        label under the repository label and authorises the discipline. */
    method FileProcess(attrs: seq<(string, Value)>, linked: Dict<string, seq<string>>,
                       processes: seq<(Value, seq<Value>)>, count: nat, authorised: bool)
      returns (processes': seq<(Value, seq<Value>)>, count': nat, authorised': bool, raised: Option<PyError>)
      requires UniqueKeys(processes) && count == Total(processes)
      ensures raised.Some? ==> IriAttributeAnywhere(onto.graph)
      ensures raised.None? ==> UniqueKeys(processes') && count' == Total(processes')
                               && count' == count + FiledCount(attrs, linked)
                               && authorised' == (authorised || Authorises(attrs, linked))
    {
      processes', count', authorised', raised := processes, count, authorised, None;
      FiledCountAuthorises(attrs, linked);
      var repository := Get(attrs, "repository");
      if repository.None? || !repository.value.VStr? || !HasKey(linked, repository.value.s) {
        return;
      }
      var repo := repository.value.s;
      var names := Get(linked, repo).value;
      var id := GetOr(attrs, "id", VStr(""));
      for i := 0 to |names|
        invariant UniqueKeys(processes') && count' == Total(processes')
        invariant count' == count + |MatchingNames(names[..i], repo, id)|
        invariant authorised' == (authorised || count' > count)
        invariant raised.None?
      {
        MatchingNamesStep(names, i, repo, id);
        if id == VStr(repo + "." + names[i]) {
          authorised' := true;
          var filed := FileMatch(id.s, repo, processes');
          if filed.Err? {
            raised := Some(filed.error);
            return;
          }
          processes' := filed.value;
          count' := count' + 1;
        }
      }
      assert names[..|names|] == names;
    }

    /** One match: the label of the process `id` filed under the label of
        the repository `repo`, either label `'id'` when missing. */
    method FileMatch(id: string, repo: string, processes: seq<(Value, seq<Value>)>)
      returns (r: Result<seq<(Value, seq<Value>)>, PyError>)
      requires UniqueKeys(processes)
      ensures r.Err? ==> IriAttributeAnywhere(onto.graph)
      ensures r.Ok? ==> UniqueKeys(r.value) && Total(r.value) == Total(processes) + 1
    {
      var processMetadata := GetProcessMetadata(id);
      if processMetadata.Err? {
        KindAnswerRaises("process", id, processMetadata);
        return Err(processMetadata.error);
      }
      var repoMetadata := GetRepoMetadata(repo);
      if repoMetadata.Err? {
        KindAnswerRaises("repository", repo, repoMetadata);
        return Err(repoMetadata.error);
      }
      var processName := GetOr(processMetadata.value, "label", VStr("id"));
      var repoName := GetOr(repoMetadata.value, "label", VStr("id"));
      FileUnderTotal(processes, repoName, processName);
      r := Ok(FileUnder(processes, repoName, processName));
    }

    /** The processes of `d` read so far: those of `procs` not in `todo`,
        each with the attributes read for it in `seen`. */
    ghost predicate UsedProcessesSoFar(d: Term, linked: Dict<string, seq<string>>, procs: set<Term>, todo: set<Term>,
                                   seen: map<Term, seq<(string, Value)>>, processes: seq<(Value, seq<Value>)>,
                                   count: nat, authorised: bool)
      reads onto
    {
      SeenSoFar(d, procs, todo, seen) && FiledSoFar(linked, seen, processes, count, authorised)
    }

    /** The processes of `procs` not in `todo` were read, with the attributes in `seen`. */
    ghost predicate SeenSoFar(d: Term, procs: set<Term>, todo: set<Term>, seen: map<Term, seq<(string, Value)>>)
      reads onto
    {
      todo <= procs
      && (forall p :: p in seen <==> p in procs && p !in todo)
      && (forall p :: p in seen ==> UsedProcess(d, p) && AttributesRead(p, seen[p]))
    }

    /** `processes` files what the readings in `seen` authorise. */
    ghost predicate FiledSoFar(linked: Dict<string, seq<string>>, seen: map<Term, seq<(string, Value)>>,
                               processes: seq<(Value, seq<Value>)>, count: nat, authorised: bool)
    {
      (authorised <==> exists p :: p in seen && Authorises(seen[p], linked))
      && UniqueKeys(processes) && count == Total(processes) && (authorised <==> count > 0)
    }

    lemma UsedProcessesStep(d: Term, linked: Dict<string, seq<string>>, procs: set<Term>, todo: set<Term>,
                        seen: map<Term, seq<(string, Value)>>, processes: seq<(Value, seq<Value>)>,
                        count: nat, authorised: bool, p: Term, attrs: seq<(string, Value)>,
                        processes': seq<(Value, seq<Value>)>, count': nat, authorised': bool)
      requires UsedProcessesSoFar(d, linked, procs, todo, seen, processes, count, authorised)
      requires p in todo && UsedProcess(d, p) && AttributesRead(p, attrs)
      requires UniqueKeys(processes') && count' == Total(processes') && count' == count + FiledCount(attrs, linked)
      requires authorised' == (authorised || Authorises(attrs, linked))
      ensures UsedProcessesSoFar(d, linked, procs, todo - {p}, seen[p := attrs], processes', count', authorised')
    {
      SeenStep(d, procs, todo, seen, p, attrs);
      FiledStep(linked, seen, processes, count, authorised, p, attrs, processes', count', authorised');
    }

    lemma SeenStep(d: Term, procs: set<Term>, todo: set<Term>, seen: map<Term, seq<(string, Value)>>,
                   p: Term, attrs: seq<(string, Value)>)
      requires SeenSoFar(d, procs, todo, seen)
      requires p in todo && UsedProcess(d, p) && AttributesRead(p, attrs)
      ensures SeenSoFar(d, procs, todo - {p}, seen[p := attrs])
    {
    }

    lemma FiledStep(linked: Dict<string, seq<string>>, seen: map<Term, seq<(string, Value)>>,
                    processes: seq<(Value, seq<Value>)>, count: nat, authorised: bool,
                    p: Term, attrs: seq<(string, Value)>,
                    processes': seq<(Value, seq<Value>)>, count': nat, authorised': bool)
      requires FiledSoFar(linked, seen, processes, count, authorised) && p !in seen
      requires UniqueKeys(processes') && count' == Total(processes') && count' == count + FiledCount(attrs, linked)
      requires authorised' == (authorised || Authorises(attrs, linked))
      ensures FiledSoFar(linked, seen[p := attrs], processes', count', authorised')
    {
      FiledCountAuthorises(attrs, linked);
      var seen' := seen[p := attrs];
      if Authorises(attrs, linked) {
        assert p in seen' && Authorises(seen'[p], linked);
      }
      if authorised {
        var q :| q in seen && Authorises(seen[q], linked);
        assert q in seen' && Authorises(seen'[q], linked);
      }
    }

    /** One discipline of `get_models_list_filtered`: its listing when a
        process it is used in authorises it, none otherwise. */
    method ModelRow(d: Term, linked: Dict<string, seq<string>>) returns (row: Option<ModelStatus>, raised: Option<PyError>)
      ensures raised.Some? ==> IriAttributeAnywhere(onto.graph)
      ensures raised.None? && row.Some? ==> RowRead(linked, d, row.value)
      ensures raised.None? && row.None? ==> Unauthorised(linked, d)
    {
      row, raised := None, None;
      var attrs := ReadAttributes(d);
      if attrs.Err? {
        IriAttributeRaises(d);
        return None, Some(attrs.error);
      }
      var code := GetCodeRepositoryLabel(d);
      var processes, count, authorised, err, seen := FileUsedProcesses(d, linked);
      if err.Some? {
        return None, err;
      }
      if authorised {
        RowIntro(linked, d, attrs.value, code, seen, processes, count);
        row := Some(StatusOf(onto.labelOf(onto.graph, d), attrs.value, code, count, processes));
      } else {
        UnauthorisedIntro(linked, d, seen, processes, count);
      }
    }

    /** All the processes of `d` were read, with the attributes in `seen`,
        and filed in `processes`. */
    ghost predicate UsedProcessesRead(d: Term, linked: Dict<string, seq<string>>, seen: map<Term, seq<(string, Value)>>,
                                      processes: seq<(Value, seq<Value>)>, count: nat, authorised: bool)
      reads onto
    {
      (forall p :: p in seen <==> UsedProcess(d, p))
      && (forall p :: p in seen ==> AttributesRead(p, seen[p]))
      && (authorised <==> exists p :: p in seen && Authorises(seen[p], linked))
      && UniqueKeys(processes) && count == Total(processes) && (authorised <==> count > 0)
    }

    /** The `usedIn` objects of `d` typed `SoSProcess`. */
    method UsedProcessesOf(d: Term) returns (procs: set<Term>)
      ensures forall p :: p in procs <==> UsedProcess(d, p)
    {
      procs := set t | t in onto.graph && t.s == d && t.p == UsedIn
                       && Triple(t.o, RdfType, Sos("SoSProcess")) in onto.graph :: t.o;
      forall p | UsedProcess(d, p) ensures p in procs {
        var t := Triple(d, UsedIn, p);
        assert t in onto.graph;
      }
    }

    /** The loop over the `usedIn` objects of `d` typed `SoSProcess`. */
    method FileUsedProcesses(d: Term, linked: Dict<string, seq<string>>)
      returns (processes: seq<(Value, seq<Value>)>, count: nat, authorised: bool, raised: Option<PyError>,
               ghost seen: map<Term, seq<(string, Value)>>)
      ensures raised.Some? ==> IriAttributeAnywhere(onto.graph)
      ensures raised.None? ==> UsedProcessesRead(d, linked, seen, processes, count, authorised)
    {
      var procs := UsedProcessesOf(d);
      var todo := procs;
      seen := map[];
      processes, count, authorised, raised := [], 0, false, None;
      while todo != {}
        invariant UsedProcessesSoFar(d, linked, procs, todo, seen, processes, count, authorised)
        invariant raised.None?
        decreases |todo|
      {
        var p :| p in todo;
        var processAttrs := ReadAttributes(p);
        if processAttrs.Err? {
          IriAttributeRaises(p);
          return processes, count, authorised, Some(processAttrs.error), seen;
        }
        var processes', count', authorised', err := FileProcess(processAttrs.value, linked, processes, count, authorised);
        if err.Some? {
          return processes, count, authorised, err, seen;
        }
        UsedProcessesStep(d, linked, procs, todo, seen, processes, count, authorised, p, processAttrs.value,
                          processes', count', authorised');
        processes, count, authorised := processes', count', authorised';
        seen := seen[p := processAttrs.value];
        todo := todo - {p};
      }
      UsedProcessesDone(d, linked, procs, seen, processes, count, authorised);
    }

    lemma UsedProcessesDone(d: Term, linked: Dict<string, seq<string>>, procs: set<Term>,
                            seen: map<Term, seq<(string, Value)>>, processes: seq<(Value, seq<Value>)>,
                            count: nat, authorised: bool)
      requires forall p :: p in procs <==> UsedProcess(d, p)
      requires UsedProcessesSoFar(d, linked, procs, {}, seen, processes, count, authorised)
      ensures UsedProcessesRead(d, linked, seen, processes, count, authorised)
    {
    }

    lemma RowIntro(linked: Dict<string, seq<string>>, d: Term, attrs: seq<(string, Value)>, code: string,
                   seen: map<Term, seq<(string, Value)>>, processes: seq<(Value, seq<Value>)>, count: nat)
      requires AttributesRead(d, attrs) && CodeLabel(d, code) && UsedProcessesRead(d, linked, seen, processes, count, true)
      ensures RowRead(linked, d, StatusOf(onto.labelOf(onto.graph, d), attrs, code, count, processes))
    {
      var q :| q in seen && Authorises(seen[q], linked);
      assert UsedProcess(d, q) && AttributesRead(q, seen[q]);
      assert RowFrom(linked, d, StatusOf(onto.labelOf(onto.graph, d), attrs, code, count, processes), attrs, code);
    }

    lemma UnauthorisedIntro(linked: Dict<string, seq<string>>, d: Term, seen: map<Term, seq<(string, Value)>>,
                            processes: seq<(Value, seq<Value>)>, count: nat)
      requires UsedProcessesRead(d, linked, seen, processes, count, false)
      ensures Unauthorised(linked, d)
    {
      forall p | UsedProcess(d, p)
        ensures exists a :: AttributesRead(p, a) && !Authorises(a, linked)
      {
        assert p in seen && AttributesRead(p, seen[p]) && !Authorises(seen[p], linked);
      }
    }

    /** `get_models_list_filtered(linked)` may have listed `rows` for the
        disciplines `from`: each one authorised and listed once, and every
        discipline left out unauthorised. */
    ghost predicate ModelsListed(linked: Dict<string, seq<string>>, rows: seq<ModelStatus>, from: seq<Term>)
      reads onto
    {
      RowsRead(linked, rows, from)
      && (forall i :: 0 <= i < |from| ==> Discipline(from[i]))
      && (forall i, j :: 0 <= i < j < |from| ==> from[i] != from[j])
      && (forall d :: Discipline(d) && d !in from ==> Unauthorised(linked, d))
    }

    /** Each of `rows` is the listing of the discipline at the same place in `from`. */
    ghost predicate RowsRead(linked: Dict<string, seq<string>>, rows: seq<ModelStatus>, from: seq<Term>)
      reads onto
    {
      |rows| == |from| && forall i :: 0 <= i < |from| ==> RowRead(linked, from[i], rows[i])
    }

    lemma RowsReadAppend(linked: Dict<string, seq<string>>, rows: seq<ModelStatus>, from: seq<Term>,
                         row: ModelStatus, d: Term)
      requires RowsRead(linked, rows, from) && RowRead(linked, d, row)
      ensures RowsRead(linked, rows + [row], from + [d])
    {
      var rows', from' := rows + [row], from + [d];
      forall i | 0 <= i < |from'| ensures RowRead(linked, from'[i], rows'[i]) {
        if i < |from| {
          assert from'[i] == from[i] && rows'[i] == rows[i];
        } else {
          assert from'[i] == d && rows'[i] == row;
        }
      }
    }

    /** The disciplines read so far: those of `disciplines` not in `todo`. */
    ghost predicate ModelsSoFar(linked: Dict<string, seq<string>>, disciplines: set<Term>, todo: set<Term>,
                                rows: seq<ModelStatus>, from: seq<Term>)
      reads onto
    {
      RowsRead(linked, rows, from) && SkippedSoFar(linked, disciplines, todo, from)
    }

    /** The disciplines read so far are listed once each in `from`, or
        unauthorised. */
    ghost predicate SkippedSoFar(linked: Dict<string, seq<string>>, disciplines: set<Term>, todo: set<Term>,
                                 from: seq<Term>)
      reads onto
    {
      todo <= disciplines
      && (forall i :: 0 <= i < |from| ==> from[i] in disciplines && from[i] !in todo)
      && (forall i, j :: 0 <= i < j < |from| ==> from[i] != from[j])
      && (forall d :: d in disciplines && d !in todo && d !in from ==> Unauthorised(linked, d))
    }

    lemma ModelsStep(linked: Dict<string, seq<string>>, disciplines: set<Term>, todo: set<Term>,
                     from: seq<Term>, d: Term, listed: bool)
      requires SkippedSoFar(linked, disciplines, todo, from) && d in todo
      requires !listed ==> Unauthorised(linked, d)
      ensures SkippedSoFar(linked, disciplines, todo - {d}, if listed then from + [d] else from)
    {
      var from' := if listed then from + [d] else from;
      PlacedStep(disciplines, todo, from, d, listed);
      forall x | x in disciplines && x !in todo - {d} && x !in from'
        ensures Unauthorised(linked, x)
      {
        if x != d {
          assert x !in from;
        }
      }
    }

    /** The subjects typed `SoSDiscipline`. */
    method DisciplinesOf() returns (disciplines: set<Term>)
      ensures forall d :: d in disciplines <==> Discipline(d)
    {
      disciplines := set t | t in onto.graph && t.p == RdfType && t.o == Sos("SoSDiscipline") :: t.s;
      forall d | Discipline(d) ensures d in disciplines {
        var t := Triple(d, RdfType, Sos("SoSDiscipline"));
        assert t in onto.graph;
      }
    }

    /** `get_models_list_filtered(linked_process_dict)`: the listing of each
        `SoSDiscipline` some process authorises. */
    method GetModelsListFiltered(linked: Dict<string, seq<string>>)
      returns (r: Result<seq<ModelStatus>, PyError>, ghost from: seq<Term>)
      ensures r.Err? ==> IriAttributeAnywhere(onto.graph)
      ensures r.Ok? ==> ModelsListed(linked, r.value, from)
    {
      var disciplines := DisciplinesOf();
      var todo := disciplines;
      var rows: seq<ModelStatus> := [];
      from := [];
      while todo != {}
        invariant ModelsSoFar(linked, disciplines, todo, rows, from)
        decreases |todo|
      {
        var d :| d in todo;
        var err;
        rows, from, err := ModelItem(linked, disciplines, todo, rows, from, d);
        if err.Some? {
          return Err(err.value), from;
        }
        todo := todo - {d};
      }
      r := Ok(rows);
    }

    /** One turn of the listing: discipline `d` is read and listed, or
        skipped as unauthorised. */
    method ModelItem(linked: Dict<string, seq<string>>, disciplines: set<Term>, todo: set<Term>,
                     rows: seq<ModelStatus>, ghost from: seq<Term>, d: Term)
      returns (rows': seq<ModelStatus>, ghost from': seq<Term>, raised: Option<PyError>)
      requires ModelsSoFar(linked, disciplines, todo, rows, from) && d in todo
      ensures raised.Some? ==> IriAttributeAnywhere(onto.graph)
      ensures raised.None? ==> ModelsSoFar(linked, disciplines, todo - {d}, rows', from')
    {
      rows', from' := rows, from;
      var row;
      row, raised := ModelRow(d, linked);
      if raised.Some? {
        return;
      }
      ModelsStep(linked, disciplines, todo, from, d, row.Some?);
      if row.Some? {
        RowsReadAppend(linked, rows, from, row.value, d);
        rows' := rows + [row.value];
        from' := from + [d];
      }
    }
  }

  /** The nodes listed so far stay distinct members of `universe` that are
      no longer to do, when `d` is taken off `todo` and perhaps listed. */
  lemma PlacedStep<T>(universe: set<T>, todo: set<T>, from: seq<T>, d: T, listed: bool)
    requires todo <= universe && d in todo
    requires forall i :: 0 <= i < |from| ==> from[i] in universe && from[i] !in todo
    requires forall i, j :: 0 <= i < j < |from| ==> from[i] != from[j]
    ensures var from' := if listed then from + [d] else from;
            && (forall i :: 0 <= i < |from'| ==> from'[i] in universe && from'[i] !in todo - {d})
            && (forall i, j :: 0 <= i < j < |from'| ==> from'[i] != from'[j])
  {
  }

  /** The usage values `get_parameter_usage_metadata` reads, by key. */
  const UsageInfo: seq<(string, Option<Term>)> :=
    [("unit", Some(Sos("unit"))), ("datatype", Some(Sos("datatype"))), ("numerical", Some(Sos("numerical"))),
     ("optional", Some(Sos("optional"))), ("range", Some(Sos("range"))), ("structuring", Some(Sos("structuring"))),
     ("editable", Some(Sos("editable"))), ("possible_values", Some(Sos("possibleValues"))),
     ("dataframe_descriptor", Some(Sos("dataframeDescriptor"))),
     ("dataframe_edition_locked", Some(Sos("dataframeEditionLocked"))), ("namespace", Some(Sos("namespace"))),
     ("user_level", Some(Sos("userLevel"))), ("visibility", Some(Sos("visibility")))]

  /** The parameter values it reads; `uri` and `label` have no predicate. */
  const ParameterInfo: seq<(string, Option<Term>)> :=
    [("id", Some(SosId)), ("uri", None), ("label", None), ("definition", Some(Sos("definition"))),
     ("definition_source", Some(Sos("definitionSource"))), ("ACLTag", Some(Sos("ACLTag")))]
}
