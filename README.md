# A verified model of the SoS Trades ontology core

SoS Trades ontology reads the code of SoS Trades disciplines, processes and
usecases and turns it into entities and a log of what it found. An extractor
(`SoSDecentralizedCodeDataExtractor`) does the reading. It then writes those
entities as an RDF graph (`SoSOntology`) and answers the metadata, tree-view
and model-list requests of the web service from that graph. This project
models that core in Dafny and proves what its code promises.

The modules follow the Python files:

- `Wrappers`, `PyValue`, `PyStr`, `PyList`, `PyDict` (`wrappers.dfy`,
  `py_value.dfy`, `py_strings.dfy`, `py_list.dfy`, `py_dict.dfy`) model the
  Python values the core handles: `None`, booleans, numbers, strings, lists,
  tuples and insertion-ordered dicts. They include the parts of `str()`,
  `repr()`, `str.split`, `str.title`, `list.remove` and dict assignment the
  core relies on, and the exceptions those raise.
- `SoSEntities` (`sos_entities.dfy`) holds the entity classes of
  `sos_entities/` as Dafny classes with the same fields:
  - the first-write-wins registry `SoSEntityDict`;
  - `SoSDiscipline`, `Parameter`, `ParameterUsage`, `SoSProcess`,
    `SoSProcessRepository`, `CodeRepository`, `SoSUsecase` and `SoSCoupling`.

  Their add methods keep each object list and its id list parallel and free
  of repeats. The attribute-merge loops of `Parameter` and `ParameterUsage`
  are proved against functions that say which key fills which field.
- `Ontology` (`ontology.dfy`) is the triple store. It models:
  - the graph as a set of triples with the `countAddedTriples` counters;
  - the guarded, idempotent `add_triple`, `add_triples_list` and
    `update_triple_object`;
  - `create_new_URI` with its smallest free suffix;
  - `toLiteral`/`getLiteral`;
  - the read-side projections.
- `SoSToolbox` (`sos_toolbox.dfy`) covers `array_to_string` and the
  per-kind snapshot difference `diffDictElements`.
- `SoSTerminology` (`sos_terminology.dfy`) covers the row rule of
  `get_sheet_dict` and `get_aggregate_param`.
- `ExtractionLog` (`extraction_log.dfy`) is the log document that
  `add_to_log` builds.
- `ExtractorRules` (`extractor_rules.dfy`) states the extractor's decisions
  as functions:
  - the static-versus-loaded descriptor merge;
  - invalid ontology keys;
  - usage and coupling ids;
  - glossary de-duplication;
  - the inconsistency and no-information records of the full extraction log.
- `RepositoryInfo` (`repository_info.dfy`) covers what
  `retrieve_code_repositories` computes for one checkout: the cleaned
  remote URL, the repository name and the branch name of a detached head.
- `SoSExtractor` (`sos_extractor.dfy`) is the extractor class. It registers
  parameters, usages and couplings, checks ontology keys, applies
  glossaries and writes the full extraction logs. Each method is proved
  against the rule functions.
- `SoSGraph` (`sos_graph.dfy`) defines the SoS vocabulary. It also defines
  what each `create*Triples` builder writes per entity, and how an id
  resolves to the node carrying it, which decides the link triples.
- `SoSViews` (`sos_views.dfy`) covers the values the read side returns:
  - metadata records and the minimal not-found shapes;
  - the pre-order children list;
  - tree-view records and `PART_OF` links;
  - coupling-parameter nodes and model-list rows.
- `SoSOntology` (`sos_ontology.dfy`) is the `SoSOntology` class over the
  triple store. It holds:
  - the ABox builders, one `Add*` method per builder loop body, with the
    registry loops around them;
  - the read side: `get_*_metadata`, `get_metadata`, the tree walk of
    `get_treeview_nodes_and_links`/`get_n2_matrix`,
    `get_treeview_coupling_parameters` and `get_models_list_filtered`.

Foreign code is replaced by parameters of the model:
- rdflib's `label()` and `split_uri` become the functions `labelOf` and
  `localNameOf`;
- importing and parsing discipline code becomes the descriptor dicts it
  yields;
- git becomes the strings it reports.

Where the code and its documentation disagree, the model follows the code:
- The docstring of `retrieve_code_repositories`
  (sos_ontology/core/sos_decentralized_codedataextractor.py:1096-1097) says
  that repositories without changes are left out. The code only prints a
  message (1178-1185) and keeps them.
- Two guards in `ParameterUsage.updateAttributes` are modelled as written,
  with lemmas that show their effect:
  - the `possible_values` branch assigns only when the old and new values
    are already equal, so it never changes the field
    (sos_ontology/core/sos_entities/parameter_usage.py:105-108);
  - the `subtype_descriptor` branch compares the value with `io_type`
    (127-128).

## Model

| member | source | states |
|---|---|---|
| PyStr.Split | sos_ontology/core/sos_decentralized_codedataextractor.py:567 | at least one part; a single part, the whole text, when the separator does not occur; otherwise the first part is the text before the first separator |
| PyStr.JoinSplit | sos_ontology/core/sos_decentralized_codedataextractor.py:567 | splitting and joining again with the same separator is the identity |
| PyStr.SplitPartsAvoidSep | sos_ontology/core/sos_decentralized_codedataextractor.py:567 | no part of a split contains the separator |
| PyStr.ReplaceShrinks | sos_ontology/core/ontology.py:203 | replacing by something no longer never lengthens the text, and shortens it when the pattern occurs |
| PyStr.ReplaceCharAvoids | sos_ontology/core/ontology.py:190-196 | replacing a single character removes it: the result holds only characters of the input other than it, and characters of the replacement |
| PyStr.StripCharsAvoids | sos_ontology/core/ontology.py:194 | stripping only removes characters, so what the input avoids the result avoids |
| PyStr.StripCharsKeeps | sos_ontology/core/ontology.py:194 | text without strippable characters at its ends is left as it is |
| PyStr.StripCharsIdempotent | sos_ontology/core/ontology.py:194 | stripping twice is stripping once |
| PyStr.TitleAt | sos_ontology/core/ontology.py:201 | at every position, a letter is upper case exactly when the character before it is not a letter |
| PyStr.CaseAvoids | sos_ontology/core/ontology.py:195-201 | lower-casing and title-casing change letters only, so non-letters stay absent |
| PyStr.NatToStringInjective | sos_ontology/core/ontology.py:209 | distinct counters give distinct decimal texts |
| PyStr.ParseIntToString | sos_ontology/core/sos_decentralized_codedataextractor.py:1165 | `int(str(i)) == i` for every integer |
| PyList.RemoveMarkers | sos_ontology/core/ontology.py:324-326 | the loop that removes None and `'null'` while iterating over the same list ends with the list its step-by-step reading (`Pruned`) describes, iterator position advancing past each removal |
| PyList.PrunedIsFilter | sos_ontology/core/ontology.py:324-326 | when no marker directly follows another, that loop removes every marker and keeps the rest in order |
| PyDict.SetGet | sos_ontology/core/sos_entities/sos_usecase.py:31 | writing a key stores the value under it and leaves every other key's value as it was |
| PyDict.SetUnique | sos_ontology/core/sos_entities/sos_usecase.py:31 | writing keeps the keys distinct |
| PyDict.SetSet | sos_ontology/core/sos_entities/sos_usecase.py:31 | writing the same key twice keeps only the second write |
| PyDict.KeySetSize | sos_ontology/core/sos_entities/sos_entity.py:35-36 | with distinct keys there are as many keys as entries |
| SoSEntities.SoSEntityDict.constructor | sos_ontology/core/sos_entities/sos_entity.py:25-26 | a new registry holds no id and no entity |
| SoSEntities.SoSEntityDict.Add | sos_ontology/core/sos_entities/sos_entity.py:28-30 | the first entity registered under an id wins: a new id is appended and is then found with that entity and the length grows by one; a known id leaves every lookup and the length as they were; other ids read as before |
| SoSEntities.SoSEntityDict.Get | sos_ontology/core/sos_entities/sos_entity.py:32-33 | None exactly for an id never added; otherwise a registered entity carrying the requested id |
| SoSEntities.SoSEntityDict.Len | sos_ontology/core/sos_entities/sos_entity.py:35-36 | the number of distinct ids ever added |
| SoSEntities.AppendFacts | sos_ontology/core/sos_entities/sos_entity.py:29-30 | storing under an id the dict did not hold keeps the keys distinct, makes the id read back the entity, and leaves every other id reading as before |
| SoSEntities.RepositoryIds | sos_ontology/core/sos_decentralized_codedataextractor.py:1302 | one id per repository, position by position |
| SoSEntities.LastAssignedLooksUp | sos_ontology/core/sos_entities/parameter.py:31-41 | over a dict with distinct keys, a loop whose only branch for a field assigns it when the key matches leaves that field at the dict's value for the key, or at its initial value when the key is absent |
| SoSEntities.LastAcceptedIsAcceptedOr | sos_ontology/core/sos_entities/parameter_usage.py:92-95 | the same loop, taking only accepted values (non-blank strings), leaves the field at an accepted value under the key, or unchanged |
| SoSEntities.SoSDiscipline.constructor | sos_ontology/core/sos_entities/sos_discipline.py:21-61 | every descriptive field holds the argument passed; both usage lists and both id lists start empty |
| SoSEntities.SoSDiscipline.AddInputParameterUsage | sos_ontology/core/sos_entities/sos_discipline.py:63-71 | a usage whose id is not yet on the input side is appended to the list and its id to the id list; None or a known id changes nothing; the id list stays the duplicate-free projection of the list |
| SoSEntities.SoSDiscipline.AddOutputParameterUsage | sos_ontology/core/sos_entities/sos_discipline.py:73-81 | the same on the output side, leaving the input side alone |
| SoSEntities.Parameter.constructor | sos_ontology/core/sos_entities/parameter.py:21-41 | `unit`, `definition`, `definitionSource` and `ACLTag` hold the value of their own key and the data type the value of `type`, each None when the key is absent; usage and repository lists start empty |
| SoSEntities.Parameter.AddUsage | sos_ontology/core/sos_entities/parameter.py:43-45 | appends a usage not yet listed, otherwise the list is unchanged; a parameter free of repeated usages, repositories and discipline ids stays so |
| SoSEntities.Parameter.AddCodeRepository | sos_ontology/core/sos_entities/parameter.py:47-49 | appends a repository not yet listed, otherwise the list is unchanged; a parameter free of repeats stays so |
| SoSEntities.Parameter.AddDisciplineUsingParameter | sos_ontology/core/sos_entities/parameter_usage.py:89 | records a discipline id once; a parameter free of repeats stays so |
| SoSEntities.Parameter.AddCodeRepositoryAttributes | sos_ontology/core/sos_decentralized_codedataextractor.py:885-887 | the glossary row is stored under the repository's id, replacing an earlier row for it |
| SoSEntities.Parameter.UpdateOntologyAttributes | sos_ontology/core/sos_entities/parameter.py:51-63 | each of `unit`, `definition`, `definitionSource`, `ACLTag` and `label` takes a non-None value under its key and otherwise keeps its value; the data type is never touched |
| SoSEntities.ReadAllIsDescriptor | sos_ontology/core/sos_entities/parameter_usage.py:53-87 | over a dict with distinct keys the constructor's loop leaves every field at the value of its own key (`type` for the data type, `default` for the default value, ...) |
| SoSEntities.ReadDescriptor | sos_ontology/core/sos_entities/parameter_usage.py:34-87 | starting from all-None fields, the loop yields the descriptor read key by key |
| SoSEntities.UpdateAllIsAcceptedUpdate | sos_ontology/core/sos_entities/parameter_usage.py:92-128 | over a dict with distinct keys the update loop replaces each handled field by an accepted value under its key; `possible_values` is replaced only when the stored value already equals the new one; `subtype_descriptor` only when the value differs from the `io_type` in force |
| SoSEntities.UpdateAllFields | sos_ontology/core/sos_entities/parameter_usage.py:90-126 | a run of `updateAttributes` over any dict never changes `possible_values`, `unit`, `type` or `default`; each other handled field ends as the last accepted value given for its key, or keeps its value |
| SoSEntities.ParameterUsage.constructor | sos_ontology/core/sos_entities/parameter_usage.py:25-89 | the fields are the descriptor read from the attributes; the usage is then registered once with its parameter, which also records the discipline's id |
| SoSEntities.ParameterUsage.UpdateAttributes | sos_ontology/core/sos_entities/parameter_usage.py:91-128 | the fields become the accepted update of the old fields; `unit`, `type` and `default` have no branch and never change |
| SoSEntities.NothingAcceptedNothingChanges | sos_ontology/core/sos_entities/parameter_usage.py:93-95 | when no value in the dict is a non-blank string, the update leaves every field as it was |
| SoSEntities.SubtypeGuardComparesIoType | sos_ontology/core/sos_entities/parameter_usage.py:127-128 | an accepted `subtype_descriptor` equal to the `io_type` in force is not stored: the guard compares with `io_type`, not with the field it sets |
| SoSEntities.SoSProcess.constructor | sos_ontology/core/sos_entities/sos_process.py:23-44 | the descriptive fields hold the arguments; model and usecase lists and their id lists start empty |
| SoSEntities.SoSProcess.AddModel | sos_ontology/core/sos_entities/sos_process.py:46-49 | appends a model not yet listed and its id; otherwise nothing changes; ids stay the projection of the list |
| SoSEntities.SoSProcess.AddUsecase | sos_ontology/core/sos_entities/sos_process.py:51-54 | the same for usecases |
| SoSEntities.SoSProcessRepository.constructor | sos_ontology/core/sos_entities/sos_process_repository.py:23-30 | the fields hold the arguments; the process list and id list start empty |
| SoSEntities.SoSProcessRepository.AddProcess | sos_ontology/core/sos_entities/sos_process_repository.py:32-35 | appends a process not yet listed and its id; otherwise nothing changes |
| SoSEntities.CodeRepository.constructor | sos_ontology/core/sos_entities/code_repository.py:21-28 | empty process repository lists; branch, commit, date and url None |
| SoSEntities.CodeRepository.AddProcessRepository | sos_ontology/core/sos_entities/code_repository.py:30-33 | appends a process repository not yet listed and its id; otherwise nothing changes |
| SoSEntities.CodeRepository.UpdateInfo | sos_ontology/core/sos_entities/code_repository.py:35-39 | each of the four traceability fields takes the value of its key, None when the key is absent |
| SoSEntities.SoSUsecase.constructor | sos_ontology/core/sos_entities/sos_usecase.py:21-28 | the fields hold the arguments; the discipline dict starts empty |
| SoSEntities.SoSUsecase.AddDisciplines | sos_ontology/core/sos_entities/sos_usecase.py:30-31 | the list is stored under the local name, replacing any earlier one; other names read as before; the dict grows only for a new name |
| SoSEntities.SoSCoupling.constructor | sos_ontology/core/sos_decentralized_codedataextractor.py:1070-1078 | the coupling holds the id, label, both disciplines, both usages and the usecase it is built from |
| Ontology.TriplesOf | sos_ontology/core/ontology.py:252 | the set `addN` adds holds exactly the listed triples |
| Ontology.SetObjectSingle | sos_ontology/core/ontology.py:245 | after `graph.set` the subject and predicate have exactly the given object, and every other subject-predicate pair keeps its triples |
| Ontology.SpacedAvoids | sos_ontology/core/ontology.py:190-193 | after the first replacements no hyphen, parenthesis or pipe is left |
| Ontology.SlugAvoids | sos_ontology/core/ontology.py:189-203 | the cleaned name holds no space, underscore, hyphen, parenthesis or pipe |
| Ontology.NewURIFresh | sos_ontology/core/ontology.py:205-216 | the URI `create_new_URI` answers is the subject of no triple yet |
| Ontology.CandidateIndexOf | sos_ontology/core/ontology.py:209 | the counter can be read back from the numbered candidate, so distinct counters give distinct candidates |
| Ontology.CandidateStep | sos_ontology/core/ontology.py:208-213 | each taken candidate is a subject not counted before, so the counter is bounded by the number of subjects and the search ends |
| Ontology.LiteralTextOfList | sos_ontology/core/ontology.py:322-328 | for a list with no two adjacent markers the literal joins, with `',\n'`, exactly the elements that are not None or `'null'`, and is `' '` when none is left |
| Ontology.IriEntries | sos_ontology/core/ontology.py:177-181 | only entries whose predicate is an IRI are kept, each from the input, in order |
| Ontology.IriEntriesPrefixOf | sos_ontology/core/ontology.py:177-181 | the IRI entries of a prefix are a prefix of the IRI entries |
| Ontology.InitialAttributes | sos_ontology/core/ontology.py:82 | the attribute dict starts with the subject's uri and label, distinct keys, every key explained |
| Ontology.AttributeStep | sos_ontology/core/ontology.py:83-93 | taking one triple of the subject keeps the keys distinct, stores the attribute label of every contributing triple and keeps every stored value explained by the uri, the label or a contributing triple |
| Ontology.Ontology.constructor | sos_ontology/core/ontology.py:37-49 | an empty graph with both counters at zero |
| Ontology.Ontology.AddTriple | sos_ontology/core/ontology.py:225-235 | a None component, or a literal object whose value is `''` or None, writes nothing; otherwise the triple is in the graph afterwards, and the triple counter grows only for a new triple, the individual counter only for a new `rdf:type owl:NamedIndividual` triple |
| Ontology.Ontology.UpdateTripleObject | sos_ontology/core/ontology.py:237-245 | under the same guard, the subject-predicate pair's objects are replaced by the new one; the original object is not consulted and the counters do not move |
| Ontology.Ontology.AddTriplesList | sos_ontology/core/ontology.py:250-252 | a plain union with the listed triples, without the guard of `add_triple` and without counting |
| Ontology.Ontology.CreateNewURI | sos_ontology/core/ontology.py:184-216 | the slug under the namespace when no triple has it as subject, else the slug with the smallest suffix `_k`, k >= 1, that is no subject; the graph is unchanged |
| Ontology.Ontology.ToLiteral | sos_ontology/core/ontology.py:314-337 | an `xsd:string` literal whose text is `LiteralText` of the value; `LiteralTextOfList` states its text for a list |
| Ontology.Ontology.GetLiteral | sos_ontology/core/ontology.py:288-312 | a missing key gives `' '`; a present key gives the literal of its value |
| Ontology.Ontology.Pick | sos_ontology/core/ontology.py:164 | None when nothing matches the pattern or more than one place is open; otherwise the open component of some matching triple |
| Ontology.Ontology.ValueOf | sos_ontology/core/ontology.py:163-174 | no value exactly when no triple matches; otherwise the matched node as a label, as itself or as its literal value according to the return type; an error is always an AttributeError, only for the return type `value`, and never when every matching object is a literal |
| Ontology.Ontology.FindById | sos_ontology/core/sos_ontology.py:144-146 | None exactly when no subject carries the id literal; otherwise a subject that does |
| Ontology.Ontology.GetSubjectAttributes | sos_ontology/core/ontology.py:81-93 | raises exactly when the subject has a known attribute with an IRI object; otherwise the dict holds uri and label, the attribute label of every contributing triple, and only values explained by the uri, the label or one contributing triple |
| Ontology.Ontology.ObjectValue | sos_ontology/core/ontology.py:163-172 | a value the graph holds for the subject and predicate, or None when it holds none; raises only when an IRI object exists |
| Ontology.Ontology.GetObjectValuesDict | sos_ontology/core/ontology.py:176-182 | one entry per key whose predicate is an IRI, in order, holding a value the graph gives for that predicate or None; raises only when a chosen object is an IRI |
| SoSToolbox.ArrayToString | sos_ontology/core/sos_toolbox.py:27-50 | the loop over the caller's list, with its removals, yields `ArrayText` of the value, whose properties the three lemmas below state |
| SoSToolbox.ArrayTextOfList | sos_ontology/core/sos_toolbox.py:28-38 | for a list in which no marker follows another, the text joins with `',\n'` exactly the elements that are neither None nor `'null'`, and is `''` when none is left |
| SoSToolbox.ArrayTextKinds | sos_ontology/core/sos_toolbox.py:39-50 | None gives `''`; int, float, dict and str give `str(v)`; any other non-list value comes back unchanged; only lists, None and those types become text |
| SoSToolbox.CollectMissing | sos_ontology/core/sos_toolbox.py:82-85 | the list holds exactly the ids of one snapshot absent from the other, each once, and the counter is their number |
| SoSToolbox.RemovedStep | sos_ontology/core/sos_toolbox.py:80-85 | one kind of the old snapshot more: its fresh entry lists the ids it lost and no new ids, and other kinds keep what they had |
| SoSToolbox.RemovedPass | sos_ontology/core/sos_toolbox.py:80-85 | the first loop raises KeyError exactly for an old kind missing from the new snapshot; otherwise every old kind has a fresh entry with the right removed half |
| SoSToolbox.AddedStep | sos_ontology/core/sos_toolbox.py:87-91 | one kind of the new snapshot with ids: its entry gets the ids it gained and keeps the removed half the first loop wrote |
| SoSToolbox.AddedSkip | sos_ontology/core/sos_toolbox.py:87-88 | a kind with no ids in the new snapshot is not looked up and changes nothing |
| SoSToolbox.AddedKind | sos_ontology/core/sos_toolbox.py:87-91 | one turn of the second loop raises KeyError exactly when the kind has ids but no counterpart in the old snapshot |
| SoSToolbox.AddedPass | sos_ontology/core/sos_toolbox.py:87-91 | the second loop raises KeyError exactly for a new kind with ids that the old snapshot lacks; otherwise each such kind's added half is right |
| SoSToolbox.DiffDictElements | sos_ontology/core/sos_toolbox.py:71-93 | raises KeyError exactly when a kind with ids lacks its counterpart in the other snapshot; otherwise every kind of the old snapshot has an entry listing the ids it lost and the ids the new snapshot added, with counts equal to the list lengths, and entries for other kinds are as the caller passed them |
| SoSToolbox.SameSnapshotNoDifference | sos_ontology/core/sos_toolbox.py:71-93 | comparing a snapshot with itself reports nothing new and nothing removed |
| SoSTerminology.GetAggregateParam | sos_ontology/core/sos_terminology.py:127-133 | None exactly when the name holds neither `'_dict'` nor `'_df'`; otherwise the stripped name when it is a key, and `''` when it is not; a returned name is always shorter than the input |
| SoSTerminology.AggregateShorter | sos_ontology/core/sos_terminology.py:129 | removing the suffixes shortens every name that holds one of them |
| SoSTerminology.CellEntry | sos_ontology/core/sos_terminology.py:75-79 | a cell enters the row dict exactly when it is a string, None or a datetime, and always as a string or None |
| SoSTerminology.FilledStep | sos_ontology/core/sos_terminology.py:80-81 | the row becomes non-blank exactly when some cell so far is neither None nor `''` nor a formula |
| SoSTerminology.IndexOf | sos_ontology/core/sos_terminology.py:66 | None exactly when the key is not a header; otherwise the position of its first occurrence |
| SoSTerminology.ReadRow | sos_ontology/core/sos_terminology.py:71-81 | the row dict of the whole row, and the blank flag set exactly when no cell is meaningful |
| SoSTerminology.RowDictCells | sos_ontology/core/sos_terminology.py:74-79 | with distinct headers, each header among the columns read holds its kept cell and every other header is absent |
| SoSTerminology.StoreRow | sos_ontology/core/sos_terminology.py:82-87 | one row taken into the sheet dict and the running index as `Sheet` prescribes |
| SoSTerminology.SheetStep | sos_ontology/core/sos_terminology.py:68-87 | the sheet after one more row is that row stored into the sheet before it |
| SoSTerminology.GetSheetDict | sos_ontology/core/sos_terminology.py:63-89 | ValueError when the key is not a header; otherwise the sheet dict of the rows |
| SoSTerminology.KeptRows | sos_ontology/core/sos_terminology.py:82 | the rows that have a meaningful cell, in order |
| SoSTerminology.BlankRowsIgnored | sos_ontology/core/sos_terminology.py:71-87 | blank rows play no part: the sheet of the non-blank rows equals the sheet of all rows |
| SoSTerminology.RunningKeys | sos_ontology/core/sos_terminology.py:85-87 | without a key column the kept rows are stored under 1, 2, 3, ... in order and the running index ends one past their number |
| SoSTerminology.KeyedRows | sos_ontology/core/sos_terminology.py:83-84 | with a key column the keys of the sheet dict are exactly the key cells of the non-blank rows |
| ExtractionLog.ErrorInfo | sos_ontology/core/sos_decentralized_codedataextractor.py:157-161 | the error entry holds the message, and holds the exception text under `error` exactly when an exception is given |
| ExtractionLog.LoggedAllKeeps | sos_ontology/core/sos_decentralized_codedataextractor.py:142-178 | a run of `add_to_log` calls leaves every category it does not name as it was, and keeps the category names distinct |
| ExtractionLog.LoggedAllAppend | sos_ontology/core/sos_decentralized_codedataextractor.py:142-178 | two runs one after the other are one run, and the second run does nothing once the first has raised |
| ExtractionLog.CategorySet | sos_ontology/core/sos_decentralized_codedataextractor.py:178 | writing a category changes what that category reads and no other |
| ExtractionLog.CreatedKeeps | sos_ontology/core/sos_decentralized_codedataextractor.py:144-148 | creating a missing category touches no other category and keeps the names distinct |
| ExtractionLog.PreparedKeeps | sos_ontology/core/sos_decentralized_codedataextractor.py:144-151 | creating the category and opening the sub-category touch no other category |
| ExtractionLog.WrittenKeeps | sos_ontology/core/sos_decentralized_codedataextractor.py:153-178 | the final write touches no other category |
| ExtractionLog.LoggedKeepsOthers | sos_ontology/core/sos_decentralized_codedataextractor.py:142-178 | a call changes only the category it names |
| ExtractionLog.LoggedUnique | sos_ontology/core/sos_decentralized_codedataextractor.py:142-178 | the category names stay distinct |
| ExtractionLog.SummaryNotSpecial | sos_ontology/core/sos_decentralized_codedataextractor.py:170-177 | the summary categories are none of `date`, `errors`, `details` and `ontologyInfo`, so the branch order does not matter |
| ExtractionLog.KindOfIff | sos_ontology/core/sos_decentralized_codedataextractor.py:153-177 | each branch is taken exactly for the category it tests |
| ExtractionLog.WrittenOnList | sos_ontology/core/sos_decentralized_codedataextractor.py:156-178 | with no sub-category, `errors`, `ontologyInfo` and the summary writes fail on the list the category was created as, while `details` leaves it alone |
| ExtractionLog.NewCategoryIsList | sos_ontology/core/sos_decentralized_codedataextractor.py:144-146 | a new category without a sub-category is created as an empty list, and the call raises exactly for `errors`, `ontologyInfo` and the summary categories |
| ExtractionLog.NewCategoryIsDict | sos_ontology/core/sos_decentralized_codedataextractor.py:147-151 | a new category with a sub-category becomes a dict holding just that sub-category, and nothing is raised |
| ExtractionLog.WrittenOnDict | sos_ontology/core/sos_decentralized_codedataextractor.py:156-178 | on a container holding the sub-category as a list, the final write succeeds and leaves a dict |
| ExtractionLog.AppendedKeys | sos_ontology/core/sos_decentralized_codedataextractor.py:162 | appending to a list a dict holds keeps the dict's keys |
| ExtractionLog.StoredKeys | sos_ontology/core/sos_decentralized_codedataextractor.py:178 | overwriting a key a dict holds keeps the dict's keys |
| ExtractionLog.LoggedAfterPrepared | sos_ontology/core/sos_decentralized_codedataextractor.py:142-178 | once creation and opening succeed, the call is the final write on what they leave |
| ExtractionLog.PreparedOnEntries | sos_ontology/core/sos_decentralized_codedataextractor.py:149-151 | on a dict, a missing sub-category is opened as an empty list and a present one is kept |
| ExtractionLog.PreparedOnDict | sos_ontology/core/sos_decentralized_codedataextractor.py:144-151 | on a category that is missing or a dict, the first two steps succeed and leave the dict with the sub-category opened |
| ExtractionLog.AppendedOpened | sos_ontology/core/sos_decentralized_codedataextractor.py:150-162 | appending to an opened sub-category list adds the entry at its end |
| ExtractionLog.WrittenOnFreshSub | sos_ontology/core/sos_decentralized_codedataextractor.py:147-178 | the final write on a category holding just an empty sub-category list succeeds and keeps just that sub-category |
| ExtractionLog.WrittenOnCategory | sos_ontology/core/sos_decentralized_codedataextractor.py:153-178 | the category then holds what the branch for its kind computes from its old content |
| ExtractionLog.ErrorsAppend | sos_ontology/core/sos_decentralized_codedataextractor.py:156-162 | `errors` appends the error entry to its sub-category's list, creating the list when needed, and nothing else in the category changes |
| ExtractionLog.SummaryOverwrites | sos_ontology/core/sos_decentralized_codedataextractor.py:170-178 | a summary category stores the message under its sub-category, replacing what was there |
| ExtractionLog.WrittenSummaryOn | sos_ontology/core/sos_decentralized_codedataextractor.py:178 | the summary write on a category whose dict has the sub-category opened stores the message there |
| ExtractionLog.OpenedThenSet | sos_ontology/core/sos_decentralized_codedataextractor.py:151-178 | opening a sub-category and then writing it is the same as writing it |
| ExtractionLog.DateStamp | sos_ontology/core/sos_decentralized_codedataextractor.py:153-155 | `date` without a sub-category stores the clock reading and raises nothing |
| ExtractorRules.UsageIdInjective | sos_ontology/core/sos_decentralized_codedataextractor.py:575 | one discipline and side never give two declared names the same usage id |
| ExtractorRules.MergedBlock | sos_ontology/core/sos_decentralized_codedataextractor.py:419-435 | the block kept is the loaded or the parsed one, never has fewer names than either, and is the loaded one whenever the parsed one is absent or not larger |
| ExtractorRules.Filled | sos_ontology/core/sos_decentralized_codedataextractor.py:437-440 | a blank loaded `_ontology_data` or maturity takes the parsed value, and a non-blank one is kept |
| ExtractorRules.ReplacementLogged | sos_ontology/core/sos_decentralized_codedataextractor.py:419-435 | a `loadingDiscipline` error is logged for a block exactly when the block kept is not the loaded one, and at most two are logged |
| ExtractorRules.UnloadedTakesParsed | sos_ontology/core/sos_decentralized_codedataextractor.py:419-440 | a discipline that could not be loaded keeps whatever parsing gave |
| ExtractorRules.OntologyDataKeys | sos_ontology/core/sos_decentralized_codedataextractor.py:1084 | a key list exists only for the `sos_discipline` and `process` entities |
| ExtractorRules.InvalidKeys | sos_ontology/core/sos_decentralized_codedataextractor.py:1083-1084 | exactly the keys that are not valid ontology keys, in order |
| ExtractorRules.OntologyKeyWrites | sos_ontology/core/sos_decentralized_codedataextractor.py:1082-1089 | an empty dict logs nothing; a dict for a known entity never raises; every write is an `errors`/`ontologyKeys` entry |
| ExtractorRules.OntologyKeyReported | sos_ontology/core/sos_decentralized_codedataextractor.py:1082-1089 | a key of a discipline's `_ontology_data` is reported exactly when some key with the same text is not one of the valid keys (the message carries only the key's text) |
| ExtractorRules.TupleCouplingIdsSnoc | sos_ontology/core/sos_decentralized_codedataextractor.py:1058-1062 | one more coupled variable adds exactly its coupling id |
| ExtractorRules.CouplingIdsIff | sos_ontology/core/sos_decentralized_codedataextractor.py:1052-1080 | a coupling id is registered exactly when it comes from a variable of a tuple whose two disciplines are both known, built from the disciplines' ids and the variable's bare name |
| ExtractorRules.CouplingFindsUsage | sos_ontology/core/sos_decentralized_codedataextractor.py:1063-1065 | a coupling finds the output usage of its source discipline exactly when that usage was declared under the variable's bare name, so a namespaced declaration is not found |
| ExtractorRules.FirstRowsFacts | sos_ontology/core/sos_decentralized_codedataextractor.py:1250-1267 | after dropping duplicates each id occurs once with the row that came first; every row is kept or reported as a duplicate; only ids of the glossary are reported; nothing is reported, and nothing dropped, exactly when the ids were distinct |
| ExtractorRules.FirstRowsKeys | sos_ontology/core/sos_decentralized_codedataextractor.py:1265-1267 | the kept rows have distinct ids, the same ids as the glossary |
| ExtractorRules.FirstRowsGet | sos_ontology/core/sos_decentralized_codedataextractor.py:1265-1267 | each id reads the row its first occurrence had |
| ExtractorRules.FirstRowsCount | sos_ontology/core/sos_decentralized_codedataextractor.py:1250-1267 | kept rows and reported duplicates together are as many as the rows |
| ExtractorRules.DuplicatedIdsFacts | sos_ontology/core/sos_decentralized_codedataextractor.py:1250-1256 | the duplicates reported are ids of the glossary, and none is reported exactly when the ids are distinct |
| ExtractorRules.FirstRowsEmpty | sos_ontology/core/sos_decentralized_codedataextractor.py:1265-1267 | dropping duplicates leaves no row only when there was none |
| ExtractorRules.MissingParameters | sos_ontology/core/sos_decentralized_codedataextractor.py:878-890 | exactly the glossary ids with no registered parameter |
| ExtractorRules.GroupedFacts | sos_ontology/core/sos_decentralized_codedataextractor.py:1314-1334 | grouping with `setdefault` and `append` gives each value seen once, with every provenance it was seen with, in order |
| ExtractorRules.GroupedKeys | sos_ontology/core/sos_decentralized_codedataextractor.py:1317-1334 | the groups have distinct keys, exactly the values seen |
| ExtractorRules.GroupedSnoc | sos_ontology/core/sos_decentralized_codedataextractor.py:1317-1320 | one more value seen appends its provenance to its own group, creating it when needed |
| ExtractorRules.GroupedStep | sos_ontology/core/sos_decentralized_codedataextractor.py:1317-1320 | one more value seen: only its own group grows |
| ExtractorRules.GroupedGet | sos_ontology/core/sos_decentralized_codedataextractor.py:1314-1334 | each value reads its provenances when seen and nothing otherwise |
| ExtractorRules.UnseenProvenances | sos_ontology/core/sos_decentralized_codedataextractor.py:1317-1334 | a value never seen has no provenance |
| ExtractorRules.SeveralGroups | sos_ontology/core/sos_decentralized_codedataextractor.py:1337-1340 | there is more than one group exactly when two different values were seen |
| ExtractorRules.Deduplicated | sos_ontology/core/sos_decentralized_codedataextractor.py:1310-1311 | no repeats, and the same members as the list |
| ExtractorRules.InconsistenciesIff | sos_ontology/core/sos_decentralized_codedataextractor.py:1336-1347 | an `inconsistencies` write is made exactly when the units or the datatypes disagree, and it is the only kind of write made there |
| ExtractorRules.InconsistencyRecorded | sos_ontology/core/sos_decentralized_codedataextractor.py:1298-1347 | a record is written exactly when two different units, or two different datatypes, were seen: on the usages, plus the glossary rows when more than one repository describes the parameter |
| ExtractorRules.ParameterOutcomeShape | sos_ontology/core/sos_decentralized_codedataextractor.py:1298-1334 | repositories are listed under `multiple_parameters_info` exactly when there are more than one; the parameter is filed for `no_parameter_info` exactly when it has none, under its usages' repository labels; the pass raises exactly for a repository-less parameter whose usage's discipline has no repository, or a glossary row lacking a column |
| ExtractorRules.ParameterLogCategories | sos_ontology/core/sos_decentralized_codedataextractor.py:1298-1347 | one parameter writes only `multiple_parameters_info` and `inconsistencies` |
| ExtractorRules.ParametersLogCategories | sos_ontology/core/sos_decentralized_codedataextractor.py:1297-1347 | the per-parameter pass writes only those two categories |
| ExtractorRules.Outcomes | sos_ontology/core/sos_decentralized_codedataextractor.py:1297 | one outcome per registered parameter, in order |
| ExtractorRules.PassStep | sos_ontology/core/sos_decentralized_codedataextractor.py:1297-1347 | one more parameter while nothing has raised: its writes follow, its repositories are filed when it has none, and its exception becomes the pass's |
| ExtractorRules.PassSticks | sos_ontology/core/sos_decentralized_codedataextractor.py:1297-1347 | the pass stops at the first parameter that raises |
| ExtractorRules.PassGrows | sos_ontology/core/sos_decentralized_codedataextractor.py:1297-1347 | the writes of a prefix of the parameters are a prefix of the whole pass's writes |
| ExtractorRules.PassWritesFrom | sos_ontology/core/sos_decentralized_codedataextractor.py:1297-1347 | every write of the pass comes from one parameter's outcome |
| ExtractorRules.NoInfoInverted | sos_ontology/core/sos_decentralized_codedataextractor.py:1349-1370 | inverting loses nothing: a repository label is listed exactly when some parameter was filed under it, and a parameter is in a label's list exactly when it was filed under that label |
| ExtractorRules.ClosingWritesKeep | sos_ontology/core/sos_decentralized_codedataextractor.py:1349-1413 | the `no_parameter_info` and `synthesis` writes leave every other category as it was |
| ExtractorRules.ExtractionLogsKeep | sos_ontology/core/sos_decentralized_codedataextractor.py:1295-1416 | when nothing is raised, the traceability entry holds the repositories' traceability dict and every category the pass does not write is as it was |
| ExtractorRules.InvalidKeyReported | sos_ontology/core/sos_decentralized_codedataextractor.py:1082-1089 | every key of a discipline's `_ontology_data` that is not one of the valid keys is reported with its message |
| ExtractorRules.ReportedKeyInvalid | sos_ontology/core/sos_decentralized_codedataextractor.py:1082-1089 | every reported message names the text of a key of the data that is not one of the valid keys |
| SoSExtractor.DescriptorsStep | sos_ontology/core/sos_decentralized_codedataextractor.py:553-597 | one more declared entry adds its last dotted segment to the parameter names and its usage id to the usage ids when the key is a string, and adds nothing otherwise |
| SoSExtractor.ParameterNamesIff | sos_ontology/core/sos_decentralized_codedataextractor.py:567-573 | a parameter name is registered exactly when some string key of the declaration ends with it after its last dot |
| SoSExtractor.UsageIdsIff | sos_ontology/core/sos_decentralized_codedataextractor.py:575-591 | a usage id is registered exactly when it is `<discipline>_<io>_<key>` for some string key of the declaration |
| SoSExtractor.UsageIdsDistinct | sos_ontology/core/sos_decentralized_codedataextractor.py:575 | distinct declared keys give distinct usage ids |
| SoSExtractor.SideOf | sos_ontology/core/sos_decentralized_codedataextractor.py:592-597 | the usage joins the input side exactly for io `input` and the output side exactly for io `output` |
| SoSExtractor.AppendAllOne | sos_ontology/core/sos_entities/sos_discipline.py:63-71 | appending one usage id is `append` guarded by `not in` |
| SoSExtractor.SideIdsStep | sos_ontology/core/sos_decentralized_codedataextractor.py:592-597 | the ids of one side after a run of usages are the ids after the run without its last usage, extended by that usage |
| SoSExtractor.AppendAllMembers | sos_ontology/core/sos_entities/sos_discipline.py:63-71 | after appending a run of ids, an id is listed exactly when it was listed or is in the run; the list stays free of duplicates and keeps its old prefix |
| SoSExtractor.AppendAllFresh | sos_ontology/core/sos_entities/sos_discipline.py:63-71 | appending distinct ids none of which is listed yet extends the list by exactly those ids |
| SoSExtractor.LogCall | sos_ontology/core/sos_decentralized_codedataextractor.py:142-178 | with no log document nothing is written and nothing raised; with one, a document remains |
| SoSExtractor.LogCalls | sos_ontology/core/sos_decentralized_codedataextractor.py:142-178 | a run of log calls leaves no document and raises nothing exactly when there was no document |
| SoSExtractor.ExtractionLogsByCalls | sos_ontology/core/sos_decentralized_codedataextractor.py:1295-1416 | the full extraction log is the per-parameter run of log calls, then the closing run, then the traceability assignment, each stopping at the first exception; with no document the assignment raises TypeError |
| SoSExtractor.LogCallsAppend | sos_ontology/core/sos_decentralized_codedataextractor.py:142-178 | two runs of log calls in a row are one run of both, stopping at the first exception |
| SoSExtractor.PassLoggedStep | sos_ontology/core/sos_decentralized_codedataextractor.py:1295-1340 | logging one more parameter's entries extends the run of log calls by exactly those entries |
| SoSExtractor.PassLoggedEnd | sos_ontology/core/sos_decentralized_codedataextractor.py:1295-1340 | once a parameter raises or a log call raises, the rest of the parameters add nothing to the document |
| SoSExtractor.UsageRepositories | sos_ontology/core/sos_decentralized_codedataextractor.py:1306-1309 | the repository labels of the usages, in order, exist exactly when every usage's discipline has a repository |
| SoSExtractor.UnitsSeen | sos_ontology/core/sos_decentralized_codedataextractor.py:1316-1325 | one (unit, discipline provenance) pair per usage |
| SoSExtractor.DatatypesSeen | sos_ontology/core/sos_decentralized_codedataextractor.py:1316-1325 | one (datatype, discipline provenance) pair per usage |
| SoSExtractor.RecordOf | sos_ontology/core/sos_decentralized_codedataextractor.py:1300-1325 | a parameter's record carries its id and one repository id per code repository |
| SoSExtractor.RecordsOf | sos_ontology/core/sos_decentralized_codedataextractor.py:1300 | one record per registered parameter |
| SoSExtractor.CodeDataExtractor.constructor | sos_ontology/core/sos_decentralized_codedataextractor.py:51-141 | eight empty entity registries; the log document and the code repositories dict are the ones given |
| SoSExtractor.CodeDataExtractor.AddToLog | sos_ontology/core/sos_decentralized_codedataextractor.py:142-178 | with no log document nothing changes and nothing is raised; otherwise the document becomes the logged one and its exception is raised |
| SoSExtractor.CodeDataExtractor.FindOrCreateParameter | sos_ontology/core/sos_decentralized_codedataextractor.py:567-573 | the name is registered afterwards, mapped to the parameter returned; earlier registrations keep their place and no registered parameter is replaced |
| SoSExtractor.CodeDataExtractor.FindOrCreateUsage | sos_ontology/core/sos_decentralized_codedataextractor.py:575-591 | the usage id is registered afterwards, mapped to the usage returned, which carries that id; earlier registrations are kept; the usage fields by id become `Registered`: a new id gets the descriptor's fields, an existing one the accepted update of its old fields, and every other usage keeps its fields |
| SoSExtractor.CodeDataExtractor.NewUsage | sos_ontology/core/sos_decentralized_codedataextractor.py:578-587 | a fresh usage of the parameter in the discipline whose fields are read from the descriptor's attributes (`Descriptor`), appended to the parameter's usages, with the discipline's id listed once among the disciplines using it |
| SoSExtractor.CodeDataExtractor.RegisterParameter | sos_ontology/core/sos_decentralized_codedataextractor.py:565-597 | one string key registers its parameter name and usage id, both mapped to the objects found or created, and the usage id joins only the discipline side `io` names; the usage fields by id become `Registered` for that usage id and the key's attributes |
| SoSExtractor.CodeDataExtractor.RegisterEntry | sos_ontology/core/sos_decentralized_codedataextractor.py:553-597 | one declared entry: the same registrations and usage fields, and every registered object is an earlier one or a new one |
| SoSExtractor.CodeDataExtractor.Attach | sos_ontology/core/sos_decentralized_codedataextractor.py:592-597 | the usage id joins the input ids, the output ids or neither, as the side says, and the other side is unchanged |
| SoSExtractor.CodeDataExtractor.GenerateParameters | sos_ontology/core/sos_decentralized_codedataextractor.py:553-597 | the registered parameter names grow by exactly the declared names, the usage ids by exactly the declared usage ids, and the discipline's side lists by the usage ids in declaration order; the usage fields by id become `RegisteredFields` of the old ones, the declaration folded in order |
| SoSExtractor.CodeDataExtractor.RegisterAt | sos_ontology/core/sos_decentralized_codedataextractor.py:555-597 | one more declared entry extends the registered names, usage ids, side lists and usage fields from those of the entries before it to those of the entries up to it |
| SoSExtractor.CodeDataExtractor.AddAllToLog | sos_ontology/core/sos_decentralized_codedataextractor.py:142-178 | a run of `add_to_log` calls leaves the document and the exception `LogCalls` gives |
| SoSExtractor.CodeDataExtractor.MergeParsedAttributes | sos_ontology/core/sos_decentralized_codedataextractor.py:419-440 | the replacement entries are logged; when none raises, the result is the loaded attributes with the parsed ones filled in; otherwise the exception is returned |
| SoSExtractor.CodeDataExtractor.CheckOntologyKeys | sos_ontology/core/sos_decentralized_codedataextractor.py:1082-1089 | reading the keys of a non-dict or of an unknown entity raises before anything is logged; otherwise one errors entry per invalid key is logged |
| SoSExtractor.CodeDataExtractor.UsageOrNull | sos_ontology/core/sos_decentralized_codedataextractor.py:1063-1065 | a usage is found exactly when its id is registered, and it is the registered usage with that id |
| SoSExtractor.CodeDataExtractor.GenerateCouplings | sos_ontology/core/sos_decentralized_codedataextractor.py:1052-1080 | the registered coupling ids grow by exactly the ids the tuples between registered disciplines produce; each new coupling joins its two disciplines' usages and the use case |
| SoSExtractor.CodeDataExtractor.CoupleVariables | sos_ontology/core/sos_decentralized_codedataextractor.py:1058-1079 | one tuple registers one coupling id per variable, and each new coupling is wired |
| SoSExtractor.CodeDataExtractor.AddCoupling | sos_ontology/core/sos_decentralized_codedataextractor.py:1060-1079 | the coupling id is registered afterwards; an existing coupling is reused, and a new one is wired to both usages and the use case |
| SoSExtractor.CodeDataExtractor.Supply | sos_ontology/core/sos_decentralized_codedataextractor.py:880-885 | the parameter's state becomes `SuppliedState` of its old state: the unit, definition, definition source, ACL tag and label the row carries override the fields, the repository is listed once, the row is stored under the repository id, and the data type, usages and discipline ids stay |
| SoSExtractor.CodeDataExtractor.AddOntologyDataToParameters | sos_ontology/core/sos_decentralized_codedataextractor.py:875-896 | the parameters' states become `Glossed` of the old ones (a parameter with a glossary row is supplied with it, every other parameter is left as it was), each supplied parameter records the repository and its row, and the ids of the other rows are logged once under parameter_does_not_exist when there are any, nothing being logged otherwise |
| SoSExtractor.CodeDataExtractor.ReadGlossary | sos_ontology/core/sos_decentralized_codedataextractor.py:1237-1293 | an absent glossary is logged under errors; an unreadable one raises; the rows of a read one reach the registered parameters through the repository, and a non-empty glossary of an unregistered repository raises |
| SoSExtractor.CodeDataExtractor.ApplyGlossaryRows | sos_ontology/core/sos_decentralized_codedataextractor.py:1250-1290 | duplicated ids are logged and only each id's first row is applied; the rows reach the registered parameters, or raise when the repository is not registered and rows remain |
| SoSExtractor.CodeDataExtractor.RetrieveParameterGlossary | sos_ontology/core/sos_decentralized_codedataextractor.py:1237-1293 | the repository id is the last path segment; an exception of the lookup is logged under errors/parameterGlossary with the exception; an absent glossary is logged once; a read glossary reaches the registered parameters |
| SoSExtractor.CodeDataExtractor.GenerateFullExtractionLogs | sos_ontology/core/sos_decentralized_codedataextractor.py:1295-1416 | the document left and the exception raised are the full extraction log of the registered parameters' records, the registry counts and the traceability dict |
| SoSExtractor.CodeDataExtractor.LogParameters | sos_ontology/core/sos_decentralized_codedataextractor.py:1300-1370 | the per-parameter loop logs exactly the pass's entries and, when nothing raised, returns the pass's no-info entries and error |
| SoSExtractor.CodeDataExtractor.KeptByPrefix | sos_ontology/core/sos_entities/sos_entity.py:28-33 | an entity registered before is found unchanged after more registrations |
| SoSExtractor.RegisteredFieldsEntry | sos_ontology/core/sos_decentralized_codedataextractor.py:555-591 | after a declaration with distinct keys, the usage of each string key has the fields its own entry gives: the descriptor's for a new id, the accepted update of its old fields for a known one |
| SoSExtractor.RegisteredFieldsOthers | sos_ontology/core/sos_decentralized_codedataextractor.py:555-591 | an id is in the usage table after a declaration exactly when it was before or is a declared usage id, and ids no key declares keep their fields |
| SoSExtractor.SuppliedStateRecords | sos_ontology/core/sos_decentralized_codedataextractor.py:880-885 | a supplied parameter lists the repository and holds the row under the repository id, and its data type, usages and discipline ids are unchanged |
| SoSExtractor.SuppliedStateIdempotent | sos_ontology/core/sos_decentralized_codedataextractor.py:880-885 | supplying the same row from the same repository twice leaves the parameter as supplying it once |
| SoSExtractor.GlossedStep | sos_ontology/core/sos_decentralized_codedataextractor.py:878-888 | one more glossary row supplies its own parameter when that parameter is registered, and changes no other |
| SoSExtractor.GlossedRecords | sos_ontology/core/sos_decentralized_codedataextractor.py:878-888 | a parameter the glossary has a row for records the repository and holds that row under the repository id |
| SoSExtractor.GlossedIdempotent | sos_ontology/core/sos_decentralized_codedataextractor.py:875-896 | applying the same glossary twice leaves the parameters as applying it once |
| SoSExtractor.CodeDataExtractor.CreateParameter | sos_ontology/core/sos_decentralized_codedataextractor.py:569-573 | a fresh parameter is registered under the new name, and the usage table is unchanged |
| SoSExtractor.CodeDataExtractor.CreateUsage | sos_ontology/core/sos_decentralized_codedataextractor.py:578-588 | a fresh usage with the descriptor's fields is registered under the new id, and every other usage keeps its fields |
| SoSExtractor.CodeDataExtractor.RegisterUsage | sos_ontology/core/sos_decentralized_codedataextractor.py:585 | the usage is registered under its id with its fields, and the other registered usages keep theirs |
| SoSExtractor.CodeDataExtractor.UpdateUsage | sos_ontology/core/sos_decentralized_codedataextractor.py:589-591 | the known usage's fields become the accepted update of its old fields, and every other usage keeps its fields |
| SoSExtractor.CodeDataExtractor.RefreshUsage | sos_ontology/core/sos_decentralized_codedataextractor.py:589-591 | the usage's fields become the accepted update of its old fields by the attributes (`updateAttributes`) |
| SoSExtractor.CodeDataExtractor.SupplyAll | sos_ontology/core/sos_decentralized_codedataextractor.py:877-888 | the loop supplies every registered parameter with its row, leaves the others as they were, and collects the ids of the other rows in order |
| SoSExtractor.CodeDataExtractor.SupplyEntry | sos_ontology/core/sos_decentralized_codedataextractor.py:878-888 | a row found in the registry supplies its parameter and leaves every other parameter as it was; a row that is not found changes nothing |
| RepositoryInfo.LineEnd | sos_ontology/core/sos_decentralized_codedataextractor.py:1106 | where a regular expression's `.` stops: the first newline at or after the start, or the end of the text |
| RepositoryInfo.CredentialMatch | sos_ontology/core/sos_decentralized_codedataextractor.py:1106 | the first match of `://.*@`: a `://` followed on its line by an `@`, extending to the last `@` of that line |
| RepositoryInfo.OneLineCredentials | sos_ontology/core/sos_decentralized_codedataextractor.py:1147 | on a one-line URL, credential stripping keeps what precedes the first `://` that an `@` follows, drops everything up to the last `@`, and leaves no `@` after it; a URL with no match is unchanged |
| RepositoryInfo.NoAtNoMatch | sos_ontology/core/sos_decentralized_codedataextractor.py:1147 | text without `@` is left alone by credential stripping |
| RepositoryInfo.TrimGitSuffix | sos_ontology/core/sos_decentralized_codedataextractor.py:1188-1189 | a URL ending with `.git` loses exactly that suffix; any other URL is unchanged |
| RepositoryInfo.LettersEnd | sos_ontology/core/sos_decentralized_codedataextractor.py:1110 | the end of the run of letters that begins the SSH pattern |
| RepositoryInfo.HostEnd | sos_ontology/core/sos_decentralized_codedataextractor.py:1110 | the end of the run of host characters in the SSH pattern |
| RepositoryInfo.ReplaceOneChar | sos_ontology/core/sos_decentralized_codedataextractor.py:1192 | replacing one character by another maps it position by position |
| RepositoryInfo.SshRemote | sos_ontology/core/sos_decentralized_codedataextractor.py:1191-1193 | an SSH remote `user@host:path` on one line, with no other `@`, becomes `https://host/path` with every `:` after the user turned into `/` |
| RepositoryInfo.SlashedShape | sos_ontology/core/sos_decentralized_codedataextractor.py:1192-1193 | turning `:` into `/` keeps the URL on one line with the user's `@` as its last `@` |
| RepositoryInfo.SshToHttpsAt | sos_ontology/core/sos_decentralized_codedataextractor.py:1193 | `^.*@` replaced by `https://` keeps what follows the last `@` of the line |
| RepositoryInfo.LexLessIrreflexive | sos_ontology/core/sos_decentralized_codedataextractor.py:1168 | no version key sorts before itself |
| RepositoryInfo.LexLessTransitive | sos_ontology/core/sos_decentralized_codedataextractor.py:1168 | the order on version keys is transitive |
| RepositoryInfo.LexLessTotal | sos_ontology/core/sos_decentralized_codedataextractor.py:1168 | any two different version keys are ordered one way or the other |
| RepositoryInfo.ParseParts | sos_ontology/core/sos_decentralized_codedataextractor.py:1165 | keys exist exactly when every part parses as an integer, one integer per part |
| RepositoryInfo.ReleaseTags | sos_ontology/core/sos_decentralized_codedataextractor.py:1162 | exactly the tags on the commit whose names start with `v` |
| RepositoryInfo.LastLargest | sos_ontology/core/sos_decentralized_codedataextractor.py:1168-1170 | the position the stable sort puts last is one of the first n positions |
| RepositoryInfo.LastLargestIsMax | sos_ontology/core/sos_decentralized_codedataextractor.py:1168-1170 | the last element of the stable sort has the largest key, and every key after it is smaller |
| RepositoryInfo.NewLargest | sos_ontology/core/sos_decentralized_codedataextractor.py:1168-1170 | a later key that does not rank below the best so far becomes the best |
| RepositoryInfo.BranchName | sos_ontology/core/sos_decentralized_codedataextractor.py:1158-1173 | an attached head gives its branch; a detached head with no release tag gives `detached`; a release tag whose version is not all integers raises; a chosen tag is a release tag on the commit |
| RepositoryInfo.DetachedPicksHighest | sos_ontology/core/sos_decentralized_codedataextractor.py:1162-1170 | a detached head with release tags picks one whose version no other release tag on the commit outranks |
| RepositoryInfo.Record | sos_ontology/core/sos_decentralized_codedataextractor.py:1144-1202 | the record exists exactly when a branch name is found; it is keyed by the repository name taken from the stripped URL, or by the folder name without a remote; its five fields are, in order, the cleaned URL (`''` without a remote), the chosen branch name, the commit sha, the commit date and the checkout path |
| SoSGraph.LiteralOfString | sos_ontology/core/ontology.py:314-337 | the literal `toLiteral` gives a string is the same as the `xsd:string` literal an id is written with |
| SoSGraph.LiteralOfCount | sos_ontology/core/sos_ontology.py:1176-1189 | a count is written as the string literal of its decimal text |
| SoSGraph.NodeFacts | sos_ontology/core/sos_ontology.py:969-1034 | an entity's node has only triples about its URI, it is typed with the entity's class, and it carries the entity's id under `SOS.id` |
| SoSGraph.Carried | sos_ontology/core/sos_ontology.py:969-1107 | whatever links a builder appends after a node, the triples added still carry the node's id |
| SoSGraph.NodeAttribute | sos_ontology/core/sos_ontology.py:1000-1031 | the node holds one `SOS.<name>` triple for each attribute, with the attribute's literal |
| SoSGraph.DisciplineValues | sos_ontology/core/sos_ontology.py:1116-1274 | the discipline builder writes one value per attribute name |
| SoSGraph.DisciplineTriplesFacts | sos_ontology/core/sos_ontology.py:1109-1274 | a discipline's own triples are all about its URI and carry its id |
| SoSGraph.DisciplineQuantities | sos_ontology/core/sos_ontology.py:1176-1189 | a discipline's input and output quantity literals are the decimal lengths of its input and output usage id lists |
| SoSGraph.ZipAttribute | sos_ontology/core/sos_ontology.py:1116-1274 | the `i`-th attribute name of a discipline is written with the `i`-th value |
| SoSGraph.UsageTriplesFacts | sos_ontology/core/sos_ontology.py:1680-1831 | a usage's triples are about its URI, carry its id, and make it an `instanceOf` its parameter's node |
| SoSGraph.ResolvingIds | sos_ontology/core/ontology.py:163-174 | no more ids resolve than were looked up |
| SoSGraph.ResolvingIdsMembers | sos_ontology/core/ontology.py:163-174 | an id resolves in a lookup loop exactly when it is one of the ids looked up and some node carries it |
| SoSGraph.ResolutionLinks | sos_ontology/core/sos_ontology.py:1309-1340 | every node a lookup loop finds carries one of the ids looked up, and every id looked up that some node carries finds a node carrying it |
| SoSGraph.UsageLinks | sos_ontology/core/sos_ontology.py:1309-1340 | the same, read back per usage of a discipline |
| SoSGraph.DisciplineBuiltIntro | sos_ontology/core/sos_ontology.py:1109-1342 | a discipline built from a new URI and its lookups is built as the builder says, and carries its id |
| SoSGraph.CouplingBuiltIntro | sos_ontology/core/sos_ontology.py:1383-1457 | a coupling built from a new URI and its lookups writes `couplingOut`/`couplingIn` only when both disciplines resolve, a `represents` link per usage found, and carries its id |
| SoSGraph.ProcessLinksBuiltIntro | sos_ontology/core/sos_ontology.py:1557-1580 | a process that does not resolve gets no link; one that resolves gets one `usedIn` link from each resolving discipline of its model list |
| SoSGraph.FreshUsagesStep | sos_ontology/core/sos_ontology.py:1678-1686 | one more usage whose URI is new on the graph of its step keeps every usage URI new on its own step's graph |
| SoSGraph.ConcatAppend | sos_ontology/core/ontology.py:250-252 | adding one more list of triples appends it |
| SoSGraph.UsageStepIntro | sos_ontology/core/sos_ontology.py:1680-1831 | a new URI and the usage's triples make one usage step |
| SoSGraph.UsagesSoFarStep | sos_ontology/core/sos_ontology.py:1678-1831 | one more usage step keeps the state of the usage loop |
| SoSGraph.ParameterBuiltIntro | sos_ontology/core/sos_ontology.py:1584-1831 | a parameter whose triples come first and whose usage loop runs from the graph holding them is built, and the graph reached holds exactly the old graph and all it wrote |
| SoSGraph.ChainConcat | sos_ontology/core/ontology.py:250-252 | a run of builder steps adds exactly the triples of all the lists it wrote |
| SoSGraph.ChainGrows | sos_ontology/core/ontology.py:225-235 | a later graph of a run holds every triple of an earlier one |
| SoSGraph.StepResolves | sos_ontology/core/sos_ontology.py:960-1831 | once a step writes a node carrying an id, that id resolves on the graph at the end of the run |
| SoSGraph.DisciplineInputLinks | sos_ontology/core/sos_ontology.py:1308-1340 | every `hasInput` (`hasOutput`) target of a discipline carries the id of one of its input (output) usages, and when the id list is not empty every usage that resolves gets a link |
| SoSGraph.WrittenLinks | sos_ontology/core/sos_ontology.py:1308-1340 | the same, over any node triples that use neither link predicate |
| SoSGraph.LinkSide | sos_ontology/core/sos_ontology.py:1308-1340 | the links of one predicate among a builder's triples target only nodes of the usages, and every resolving usage is targeted when its lookups ran |
| SoSGraph.DisciplineNodePredicates | sos_ontology/core/sos_ontology.py:1116-1274 | a discipline's own triples use neither `hasInput` nor `hasOutput` |
| SoSGraph.DescribedPredicates | sos_ontology/core/sos_ontology.py:1116-1274 | a node whose attribute names avoid a name writes no triple with that predicate |
| SoSGraph.AllResolveGrow | sos_ontology/core/ontology.py:225-235 | ids once resolving keep resolving as the graph grows |
| SoSGraph.CarriesUsagesResolve | sos_ontology/core/sos_ontology.py:1678-1831 | after a usage loop, every usage id resolves |
| SoSGraph.RunSoFarStep | sos_ontology/core/sos_ontology.py:960-1831 | one more builder step whose node carries its id extends the loop's state |
| SoSGraph.RunSoFarGrows | sos_ontology/core/sos_ontology.py:960-1831 | a builder loop only ever adds triples |
| SoSGraph.CodeRepositoriesSoFarStep | sos_ontology/core/sos_ontology.py:960-1036 | one more code repository built on the graph reached extends the loop's state |
| SoSGraph.ProcessRepositoriesSoFarStep | sos_ontology/core/sos_ontology.py:1038-1107 | one more process repository built on the graph reached extends the loop's state |
| SoSGraph.ProcessesSoFarStep | sos_ontology/core/sos_ontology.py:1459-1555 | one more process built on the graph reached extends the loop's state |
| SoSGraph.DisciplinesSoFarStep | sos_ontology/core/sos_ontology.py:1109-1342 | one more discipline built on the graph reached extends the loop's state |
| SoSGraph.UsecasesSoFarStep | sos_ontology/core/sos_ontology.py:1344-1381 | one more usecase built on the graph reached extends the loop's state |
| SoSGraph.CouplingsSoFarStep | sos_ontology/core/sos_ontology.py:1383-1457 | one more coupling built on the graph reached extends the loop's state |
| SoSGraph.ParametersSoFarStep | sos_ontology/core/sos_ontology.py:1582-1831 | one more parameter built with its usages extends the loop's state, and all usages seen so far resolve |
| SoSGraph.ProcessRepositoriesOutcome | sos_ontology/core/sos_ontology.py:1038-1107 | the graph only grows; the loop raises AttributeError exactly when some process repository lacks its code repository; otherwise every process repository's id resolves |
| SoSGraph.ProcessesOutcome | sos_ontology/core/sos_ontology.py:1459-1555 | the graph only grows; the loop raises AttributeError exactly when some process lacks its repository; otherwise every process's id resolves |
| SoSGraph.DisciplinesOutcome | sos_ontology/core/sos_ontology.py:1109-1342 | the graph only grows; the loop raises AttributeError exactly when some discipline lacks its repository; otherwise every discipline's id resolves |
| SoSGraph.UsecasesOutcome | sos_ontology/core/sos_ontology.py:1344-1381 | the graph only grows; the loop raises AttributeError exactly when some usecase lacks its process; otherwise every usecase's id resolves |
| SoSViews.NotFound | sos_ontology/core/sos_ontology.py:141 | the record of an unknown id has exactly the keys `id` and `label`, both the id |
| SoSViews.ListedGet | sos_ontology/core/sos_ontology.py:246-248 | after the copy loop, a listed attribute the node has (and that is not None) is taken from the node, and every other key keeps its value |
| SoSViews.ListedUnique | sos_ontology/core/sos_ontology.py:246-248 | copying keeps the keys of the record distinct |
| SoSViews.ListedKeys | sos_ontology/core/sos_ontology.py:246-248 | copying adds exactly the copied attributes to the keys of the record |
| SoSViews.CopyListed | sos_ontology/core/sos_ontology.py:166-168 | the copy loop of each metadata query gives the listed record, with distinct keys |
| SoSViews.UpdateGetOther | sos_ontology/core/sos_ontology.py:533-535 | `update` keeps the value of a key it does not mention |
| SoSViews.UpdateGetOwn | sos_ontology/core/sos_ontology.py:533-535 | `update` gives a key it mentions the value it brings |
| SoSViews.UpdateUnique | sos_ontology/core/sos_ontology.py:533-535 | `update` keeps the keys distinct |
| SoSViews.AnsweredKinds | sos_ontology/core/sos_ontology.py:354-377 | the kinds answered are exactly the known kinds the request holds |
| SoSViews.ChildrenOf | sos_ontology/core/sos_ontology.py:612-619 | every child is smaller than its node |
| SoSViews.ShownNamespaces | sos_ontology/core/sos_ontology.py:658-659 | no more namespaces than nodes |
| SoSViews.ShownNamespacesAppend | sos_ontology/core/sos_ontology.py:655-660 | the namespaces of two runs of nodes are those of each in turn |
| SoSViews.BelowSmaller | sos_ontology/core/sos_ontology.py:655-660 | every node below a node is strictly smaller, so the recursion ends and a node is never in its own children list |
| SoSViews.BelowAllSmaller | sos_ontology/core/sos_ontology.py:655-660 | the nodes below a run of children are all smaller than their parent |
| SoSViews.ChildrenListMembers | sos_ontology/core/sos_ontology.py:651-663 | the children list holds exactly the namespaces of the shown descendants |
| SoSViews.ShownNamespacesMembers | sos_ontology/core/sos_ontology.py:658-659 | a namespace is collected exactly when some shown node of the run has it |
| SoSViews.LeafChildrenList | sos_ontology/core/sos_ontology.py:651-663 | a node whose children are all data leaves has an empty children list |
| SoSViews.BelowAllData | sos_ontology/core/sos_ontology.py:655-660 | below data leaves nothing is shown |
| SoSViews.ShownNamespacesStep | sos_ontology/core/sos_ontology.py:658-659 | one more node contributes its namespace when shown |
| SoSViews.ChildrenListStep | sos_ontology/core/sos_ontology.py:657-660 | one more child contributes its namespace when shown, then its own children list |
| SoSViews.GetChildrenList | sos_ontology/core/sos_ontology.py:651-663 | `getChildrenList` returns the namespaces of the shown descendants in pre-order |
| SoSViews.Recurse | sos_ontology/core/sos_ontology.py:655-660 | `recurse` appends a node's children list to what was collected |
| SoSViews.VisitedCount | sos_ontology/core/sos_ontology.py:612-649 | the walk never visits more children than there are |
| SoSViews.FirstShownEnd | sos_ontology/core/sos_ontology.py:647-649 | the prefix up to the first shown node is no longer than the run |
| SoSViews.VisitedShape | sos_ontology/core/sos_ontology.py:613-649 | a multi-scenario node visits its children up to and including the first shown one, or all of them when none is shown; any other node visits all its children |
| SoSViews.FirstShownEndShape | sos_ontology/core/sos_ontology.py:647-649 | before the first shown node nothing is shown, and the prefix ends with it or covers the run |
| SoSViews.FirstShownEndStep | sos_ontology/core/sos_ontology.py:647-649 | below a multi-scenario node the walk goes past a data child and stops right after the first shown one |
| SoSViews.WalkNodesShown | sos_ontology/core/sos_ontology.py:560 | data nodes never become tree records |
| SoSViews.WalkChildrenShown | sos_ontology/core/sos_ontology.py:618-646 | the walks of the children add only shown nodes |
| SoSViews.WalkCounts | sos_ontology/core/sos_ontology.py:560-649 | every shown node the walk reaches, except the one it starts from, is the source of exactly one link |
| SoSViews.WalkChildrenCounts | sos_ontology/core/sos_ontology.py:618-646 | the children's walks add as many records as links |
| SoSViews.LinkRecordFields | sos_ontology/core/sos_ontology.py:621-635 | a link's id is `<source>_TO_<target>_TYPE_PART_OF` |
| SoSViews.LinkRecordsAppend | sos_ontology/core/sos_ontology.py:636 | the links of two runs are those of each in turn |
| SoSViews.LinksStep | sos_ontology/core/sos_ontology.py:618-646 | one more child adds its link, then the links of its walk |
| SoSViews.PrivateCount | sos_ontology/core/sos_ontology.py:699-700 | no more private parameters than entries |
| SoSViews.AnnotatedGetOther | sos_ontology/core/sos_ontology.py:599-603 | merging the discipline metadata writes only `label` and `Definition` |
| SoSViews.BuildTreeRecord | sos_ontology/core/sos_ontology.py:580-607 | the record-building loop gives the tree record |
| SoSViews.TreeRecordBaseKeys | sos_ontology/core/sos_ontology.py:580-592 | the base record has exactly its ten keys, `id` to `childrenIDs`, in order and without repeats |
| SoSViews.TreeRecordFits | sos_ontology/core/sos_ontology.py:580-609 | a tree record carries the node's namespace, parent, name, type, level, parameter counts, children list and expandability, whatever the discipline metadata holds |
| SoSViews.TreeRecordUnique | sos_ontology/core/sos_ontology.py:580-609 | a tree record never duplicates a key |
| SoSViews.AnnotatedUnique | sos_ontology/core/sos_ontology.py:599-603 | merging the metadata keeps keys distinct |
| SoSViews.RecordsFitAppend | sos_ontology/core/sos_ontology.py:609 | records fitting two runs fit both in turn |
| SoSViews.WalkedTrans | sos_ontology/core/sos_ontology.py:638-646 | two walks in turn are one walk |
| SoSViews.WalkedOne | sos_ontology/core/sos_ontology.py:609 | one fitting record is one walk step |
| SoSViews.WalkedNone | sos_ontology/core/sos_ontology.py:560 | a walk that adds nothing |
| SoSViews.NodeIds | sos_ontology/core/sos_ontology.py:669-672 | the ids of the parameter nodes collected when the call starts |
| SoSViews.NewCouplingsMembers | sos_ontology/core/sos_ontology.py:676-677 | a name gets a coupling node exactly when it names a coupling entry and no parameter node had it as id when the call started |
| SoSViews.InstanceLabel | sos_ontology/core/sos_ontology.py:680-685 | the instance label is missing exactly when the name has no dot |
| SoSViews.NodeEntries | sos_ontology/core/sos_ontology.py:692-697 | a coupling node copies every metadata entry but `id` |
| SoSViews.BuildCouplingNode | sos_ontology/core/sos_ontology.py:689-697 | the node-building loop gives the coupling node |
| SoSViews.NodeEntriesStep | sos_ontology/core/sos_ontology.py:692-697 | one more metadata entry updates the node by its adjusted entry |
| SoSViews.CouplingNodeId | sos_ontology/core/sos_ontology.py:690 | a coupling node is named after its full parameter name; the metadata never overwrites its id |
| SoSViews.StatusDefaults | sos_ontology/core/sos_ontology.py:861-883 | a discipline without `validated` is listed as `NO`, without `id` as `''`; the name, code repository and count are the ones read |
| SoSViews.MatchingNamesMembers | sos_ontology/core/sos_ontology.py:839-842 | exactly the names that make the process id `<repository>.<name>` |
| SoSViews.AuthorisesMatches | sos_ontology/core/sos_ontology.py:833-843 | a process authorises exactly when its repository is a key and some name matches |
| SoSViews.FiledCountAuthorises | sos_ontology/core/sos_ontology.py:839-857 | a process is filed at least once exactly when it authorises the discipline |
| SoSViews.TotalAppend | sos_ontology/core/sos_ontology.py:857 | the total of two runs is the sum of their totals |
| SoSViews.TotalSet | sos_ontology/core/sos_ontology.py:853-856 | replacing one repository's list changes the total by the lengths' difference |
| SoSViews.FileUnderTotal | sos_ontology/core/sos_ontology.py:853-857 | filing one process keeps one list per repository, adds one to the total, and the repository is then a key |
| SoSViews.NewCouplingsDistinct | sos_ontology/core/sos_ontology.py:676-677 | the names given new coupling nodes by one call have no repeats |
| SoSViews.ItemCouplings | sos_ontology/core/sos_ontology.py:676 | exactly the names of the entries marked as couplings |
| SoSViews.CouplingsChildStep | sos_ontology/core/sos_ontology.py:638-646 | one more child's walk extends the coupling ids of the children's walk |
| SoSViews.CouplingNamesAppend | sos_ontology/core/sos_ontology.py:548-649 | the coupling names of two walks in turn are the union of each walk's |
| SoSViews.CouplingIdsTrans | sos_ontology/core/sos_ontology.py:638-646 | parameter nodes grown by two walks in turn are grown by the one walk over both, with no repeat kept |
| SoSViews.CouplingIdsFromNone | sos_ontology/core/sos_ontology.py:703-713 | from no parameter nodes, the walk's ids are exactly its coupling names, with no repeats |
| SoSViews.VisitedStep | sos_ontology/core/sos_ontology.py:647-649 | below a multi-scenario node a shown child ends the children visited; otherwise the next child is visited too |
| SoSViews.NamedAfterIds | sos_ontology/core/sos_ontology.py:665-701 | nodes appended with the new coupling names as ids add exactly the coupling entries' names to the ids |
| SoSViews.NamedAfterDistinct | sos_ontology/core/sos_ontology.py:665-701 | nodes appended with the new coupling names as ids keep the ids free of repeats |
| SoSViews.MatchingNamesStep | sos_ontology/core/sos_ontology.py:836-842 | one more process name of the repository list matches exactly when the process id is `repository.name` |
| SoSOntology.SoSOntology.constructor | sos_ontology/core/sos_ontology.py:56-102 | the graph, the attribute predicates with their labels and the local-name reader are the ones given |
| SoSOntology.SoSOntology.Resolve | sos_ontology/core/sos_ontology.py:1095-1100 | the nodes found, in order: one per id some node carries, each carrying that id |
| SoSOntology.SoSOntology.AddCodeRepository | sos_ontology/core/sos_ontology.py:961-1036 | one code repository: a URI new on the graph, its node written, the graph grown by exactly those triples, and the node carrying its id |
| SoSOntology.SoSOntology.AddProcessRepository | sos_ontology/core/sos_ontology.py:1039-1107 | raises AttributeError, adding nothing, exactly when the code repository is missing; otherwise a new URI, its node and a `belongsTo` link to the code repository's node when found |
| SoSOntology.SoSOntology.AddProcess | sos_ontology/core/sos_ontology.py:1461-1555 | raises AttributeError, adding nothing, exactly when the repository is missing; otherwise a new URI, its node and a `belongsTo` link to its repository's node when found |
| SoSOntology.SoSOntology.AddDiscipline | sos_ontology/core/sos_ontology.py:1110-1342 | raises AttributeError, adding nothing, exactly when the repository is missing; otherwise a new URI, its node, the `belongsTo` link looked up twice, and a `hasInput`/`hasOutput` link per usage found |
| SoSOntology.SoSOntology.AddUsecase | sos_ontology/core/sos_ontology.py:1345-1381 | raises AttributeError, adding nothing, exactly when the process is missing; otherwise a new URI, its node and an `implements` link to the process's node when found |
| SoSOntology.SoSOntology.AddCoupling | sos_ontology/core/sos_ontology.py:1384-1457 | a new URI, its node, `couplingOut`/`couplingIn` only when both disciplines are found, and a `represents` link per usage given and found |
| SoSOntology.SoSOntology.AddParameterAndUsages | sos_ontology/core/sos_ontology.py:1584-1831 | the parameter's node is added first, then each usage in turn gets a URI new on the graph as it then is and its node; every node written carries its id |
| SoSOntology.SoSOntology.AddUsages | sos_ontology/core/sos_ontology.py:1678-1831 | the usage loop leaves the state `UsagesSoFar` describes for all the parameter's usages |
| SoSOntology.SoSOntology.AddUsage | sos_ontology/core/sos_ontology.py:1680-1831 | one usage extends the loop's state |
| SoSOntology.SoSOntology.CreateCodeRepositoriesTriples | sos_ontology/core/sos_ontology.py:960-1036 | every code repository is built in turn, each step adding exactly its triples and its node carrying its id |
| SoSOntology.SoSOntology.StepCodeRepository | sos_ontology/core/sos_ontology.py:961-1036 | step `j` of the loop extends its state |
| SoSOntology.SoSOntology.CreateSoSProcessRepositoriesTriples | sos_ontology/core/sos_ontology.py:1038-1107 | each process repository is built in turn until the first with no code repository, which raises AttributeError |
| SoSOntology.SoSOntology.StepProcessRepository | sos_ontology/core/sos_ontology.py:1039-1107 | step `j` raises exactly when its code repository is missing, and otherwise extends the state |
| SoSOntology.SoSOntology.CreateSoSProcessTriples | sos_ontology/core/sos_ontology.py:1459-1555 | each process is built in turn until the first with no repository, which raises AttributeError |
| SoSOntology.SoSOntology.StepProcess | sos_ontology/core/sos_ontology.py:1461-1555 | step `j` raises exactly when its repository is missing, and otherwise extends the state |
| SoSOntology.SoSOntology.CreateSoSDisciplinesTriples | sos_ontology/core/sos_ontology.py:1109-1342 | each discipline is built in turn until the first with no repository, which raises AttributeError |
| SoSOntology.SoSOntology.StepDiscipline | sos_ontology/core/sos_ontology.py:1110-1342 | step `j` raises exactly when its repository is missing, and otherwise extends the state |
| SoSOntology.SoSOntology.CreateUsecasesTriples | sos_ontology/core/sos_ontology.py:1344-1381 | each usecase is built in turn until the first with no process, which raises AttributeError |
| SoSOntology.SoSOntology.StepUsecase | sos_ontology/core/sos_ontology.py:1345-1381 | step `j` raises exactly when its process is missing, and otherwise extends the state |
| SoSOntology.SoSOntology.CreateCouplingsTriples | sos_ontology/core/sos_ontology.py:1383-1457 | every coupling is built in turn |
| SoSOntology.SoSOntology.StepCoupling | sos_ontology/core/sos_ontology.py:1384-1457 | step `j` of the loop extends its state |
| SoSOntology.SoSOntology.CreateParametersAndUsagesTriples | sos_ontology/core/sos_ontology.py:1582-1831 | every parameter is built in turn with its usages, and every usage written resolves |
| SoSOntology.SoSOntology.StepParameter | sos_ontology/core/sos_ontology.py:1584-1831 | step `j` of the loop extends its state |
| SoSOntology.SoSOntology.AddProcessLinks | sos_ontology/core/sos_ontology.py:1559-1580 | a process not found adds nothing; a found one adds a `usedIn` link from each discipline of its model list that is found, and the graph grows by exactly those |
| SoSOntology.SoSOntology.CreateLinksBetweenSoSProcessAndSoSDisciplineTriples | sos_ontology/core/sos_ontology.py:1557-1580 | each process's links are added in turn |
| SoSOntology.SoSOntology.ReadAttributes | sos_ontology/core/sos_ontology.py:153-155 | reading a node's attributes fails exactly when one of its attribute triples has an IRI object; otherwise the dict holds `uri`, `label` and exactly the node's kept literals under their labels |
| SoSOntology.SoSOntology.ReadRecord | sos_ontology/core/sos_ontology.py:213-248 | the record of a found node: `id` and `label` (the id instead of a label that is only the local name, when asked), then each listed attribute the node has; keys stay distinct; fails exactly as reading the attributes does |
| SoSOntology.SoSOntology.EntityMetadata | sos_ontology/core/sos_ontology.py:205-347 | an id no node carries, or a node of another class, gives `{'id': id, 'label': id}`; otherwise the record of a node carrying the id |
| SoSOntology.SoSOntology.GetDisciplineMetadata | sos_ontology/core/sos_ontology.py:205-261 | the answer for the discipline attribute list, with the node required to be a `SoSDiscipline` |
| SoSOntology.SoSOntology.GetProcessMetadata | sos_ontology/core/sos_ontology.py:263-306 | the answer for the process attribute list, with the node required to be a `SoSProcess` |
| SoSOntology.SoSOntology.GetRepoMetadata | sos_ontology/core/sos_ontology.py:308-347 | the answer for the repository attribute list, with the node required to be a `SoSProcessRepository` |
| SoSOntology.SoSOntology.IdOfAttributes | sos_ontology/core/sos_ontology.py:187-190 | the `id` a usage's attributes hold is not None and is one of its kept id literals; a usage with a kept id literal has an `id` |
| SoSOntology.SoSOntology.UsageIds | sos_ontology/core/sos_ontology.py:171-196 | whether the parameter has usages; the read fails exactly when some usage has an IRI attribute; otherwise one id per distinct usage that has one, and every usage with an id contributes |
| SoSOntology.SoSOntology.IdsStep | sos_ontology/core/sos_ontology.py:179-190 | reading one more usage keeps the loop's collected ids |
| SoSOntology.SoSOntology.GetParameterMetadata | sos_ontology/core/sos_ontology.py:139-203 | an unknown id gives `{'id': id, 'label': id}`; a found node of any class gives its record with its label as is, plus `parameterUsagesIDs` exactly when it has usages; it fails exactly when the node or one of its usages has an IRI attribute; keys stay distinct |
| SoSOntology.SoSOntology.GetParameterUsageMetadata | sos_ontology/core/sos_ontology.py:448-546 | an unknown id, or a node that is not a `Parameter_Usage`, gives `{'id': id}`; a usage without a parameter fails, and otherwise it fails only when the usage or its parameter has an IRI object under a listed predicate; a success is `{'id': id}` updated with the parameter's values, uri and label, then with the usage's own values |
| SoSOntology.SoSOntology.KindAnswerRaises | sos_ontology/core/sos_ontology.py:349-379 | a metadata query fails only over a graph holding an IRI-valued attribute |
| SoSOntology.SoSOntology.AnswerOne | sos_ontology/core/sos_ontology.py:354-377 | one requested id is answered by the query its kind names |
| SoSOntology.SoSOntology.AnswerKind | sos_ontology/core/sos_ontology.py:354-377 | the answers of one kind: one entry per distinct requested id, each its query's answer |
| SoSOntology.SoSOntology.MetadataStep | sos_ontology/core/sos_ontology.py:349-379 | answering one more requested kind appends its key and keeps every answer |
| SoSOntology.SoSOntology.AnswerIfRequested | sos_ontology/core/sos_ontology.py:354-377 | one `if kind in request` block keeps every kind answered |
| SoSOntology.SoSOntology.GetMetadata | sos_ontology/core/sos_ontology.py:349-379 | a key for each kind the request holds, in the order disciplines, parameters, process, repository, each holding the answers to its ids; a failure only over a graph with an IRI-valued attribute |
| SoSOntology.SoSOntology.GetTreeviewCouplingParameters | sos_ontology/core/sos_ontology.py:665-701 | the count of entries that are not couplings, and one node per coupling entry whose name no node had when the call started, each read from its parameter's metadata, with the instance label appended under a scatter node |
| SoSOntology.SoSOntology.AddCouplingNode | sos_ontology/core/sos_ontology.py:678-698 | one coupling node appended, read from the metadata of the name's last dotted segment |
| SoSOntology.SoSOntology.GetTreeviewNodesAndLinks | sos_ontology/core/sos_ontology.py:548-649 | a record for each shown node the walk reaches, in pre-order, each fitting its node; a `PART_OF` link from each shown visited child to its parent; the parameter nodes keep those held before, and their ids become the ids before plus the coupling names of every shown node visited, with no id repeated when none was before; a failure only over a graph with an IRI-valued attribute |
| SoSOntology.SoSOntology.GetN2Matrix | sos_ontology/core/sos_ontology.py:703-713 | the walk from the root with no parent at level 0: one link per tree node but the root's; the parameter nodes' ids are exactly the coupling names of the shown nodes visited, each once |
| SoSOntology.SoSOntology.AddTreeRecord | sos_ontology/core/sos_ontology.py:560-611 | for a shown node: exactly one tree record, fitting the node; after the parameter nodes held before, one coupling node per coupling entry whose name no parameter node had, in entry order, each read from its parameter's metadata, with the instance label below a scatter node; a failure only over a graph with an IRI-valued attribute |
| SoSOntology.SoSOntology.DisciplineTreeRecord | sos_ontology/core/sos_ontology.py:570-609 | the tree record carries the node's namespace, parent, name, type, level, parameter counts, children list and expandability, and takes the label and `Definition` from its discipline's metadata |
| SoSOntology.SoSOntology.CouplingNodesKept | sos_ontology/core/sos_ontology.py:698 | coupling nodes are only appended |
| SoSOntology.SoSOntology.WalkTreeviewChildren | sos_ontology/core/sos_ontology.py:612-649 | each visited child's link when shown, then its walk; below a multi-scenario node the walk stops after the first shown child; the parameter nodes keep those held before, and their ids become the ids before plus the coupling names of each shown node of the children's walks, with no id repeated when none was before |
| SoSOntology.SoSOntology.ChildStep | sos_ontology/core/sos_ontology.py:618-646 | one more child extends the children's walk |
| SoSOntology.SoSOntology.ParametersKeptTrans | sos_ontology/core/sos_ontology.py:698 | parameter nodes kept twice are kept |
| SoSOntology.SoSOntology.ItemsStep | sos_ontology/core/sos_ontology.py:676-700 | one more entry counts as private exactly when it is not a coupling |
| SoSOntology.SoSOntology.CouplingNodesStep | sos_ontology/core/sos_ontology.py:676-698 | one more coupling node read from its parameter's metadata extends the nodes added |
| SoSOntology.SoSOntology.IriAttributeRaises | sos_ontology/core/ontology.py:163-174 | a node with an IRI-valued attribute puts one in the graph |
| SoSOntology.SoSOntology.GetCodeRepositoryLabel | sos_ontology/core/sos_ontology.py:813-820 | the label of a `CodeRepository` the discipline belongs to, or `''` when it has none |
| SoSOntology.SoSOntology.FileProcess | sos_ontology/core/sos_ontology.py:833-857 | the filed processes stay one list per repository label, and the count stays their total |
| SoSOntology.SoSOntology.FileMatch | sos_ontology/core/sos_ontology.py:844-857 | one match adds one process to the filing, which keeps one entry per repository label |
| SoSOntology.SoSOntology.UsedProcessesStep | sos_ontology/core/sos_ontology.py:825-857 | reading one more process the discipline is used in keeps the loop's state |
| SoSOntology.SoSOntology.ModelRow | sos_ontology/core/sos_ontology.py:806-885 | a discipline is listed exactly when some process it is used in authorises it; its row holds its label, attributes with defaults and code repository label, and a positive count of filed processes that is the total of its filing, one entry per repository label |
| SoSOntology.SoSOntology.FileUsedProcesses | sos_ontology/core/sos_ontology.py:825-857 | every `SoSProcess` the discipline is used in is read, the discipline is authorised exactly when one of them authorises it, and the filing keeps one entry per repository label with the count its total |
| SoSOntology.SoSOntology.UsedProcessesDone | sos_ontology/core/sos_ontology.py:825-857 | once every process is read, the discipline's processes are all read |
| SoSOntology.SoSOntology.RowIntro | sos_ontology/core/sos_ontology.py:859-885 | an authorised discipline with its attributes and code repository label makes its row |
| SoSOntology.SoSOntology.UnauthorisedIntro | sos_ontology/core/sos_ontology.py:859 | a discipline none of whose processes authorises it is left out |
| SoSOntology.SoSOntology.RowsReadAppend | sos_ontology/core/sos_ontology.py:885 | one more row keeps each row the listing of its discipline |
| SoSOntology.SoSOntology.ModelsStep | sos_ontology/core/sos_ontology.py:802-885 | one more discipline read keeps the listing so far |
| SoSOntology.SoSOntology.GetModelsListFiltered | sos_ontology/core/sos_ontology.py:798-889 | each `SoSDiscipline` listed once, authorised, with its row; every discipline left out is unauthorised; a failure only over a graph with an IRI-valued attribute |
| SoSOntology.SoSOntology.CouplingNodesNamed | sos_ontology/core/sos_ontology.py:689-698 | the i-th coupling node appended has the i-th new name as its id |
| SoSOntology.SoSOntology.CouplingNodesIds | sos_ontology/core/sos_ontology.py:665-701 | after one call, the ids are those held before plus every coupling entry's name |
| SoSOntology.SoSOntology.CouplingNodesDistinct | sos_ontology/core/sos_ontology.py:665-701 | one call keeps the ids free of repeats |
| SoSOntology.SoSOntology.CouplingIdsOne | sos_ontology/core/sos_ontology.py:570-575 | the coupling nodes one shown node adds are a walk of that one node: ids grow by its coupling names, with no repeat |
| SoSOntology.SoSOntology.WalkChild | sos_ontology/core/sos_ontology.py:618-646 | one more child's link and walk extend the children's walk, its links and its coupling ids |

## Left out

Outside the model:
- File, network and process I/O: reading descriptor code, `import_module`, `getattr`, the host framework's execution engine and process factory, Python `ast` parsing, git, the PYTHONPATH environment, pandas CSV reading, `write_json`/`load_json`, and the `TableLogger` reports of `write_logs` and `log_*_as_table`. What they yield arrives as parameters: descriptor dicts, parsed attribute dicts, coupling tuples, glossary rows, and git's branch, tag and URL strings.
- The extractor's discovery steps are not part of this model: `get_classes_from_parsing_code`, `get_imports_from_parsing_code`, `get_disc_attributes_from_parsing_code`, `is_sos_discipline`, `get_sos_discipline_internal_variables` (apart from its merge block at 419-440), `generate_process`, `generate_usecase` and `get_code_repository_entity`. They run foreign code.
- The loop of `retrieve_code_repositories` over checkouts is left out because it drives git. Only the per-checkout record is modelled, with its URL cleaning, repository name and tag choice (`RepositoryInfo.Record`).
- rdflib internals (`load`, `serialize`, `preferredLabel`, SPARQL `query`): the graph is a set of triples. `label()` and `split_uri` are the injected functions `labelOf` and `localNameOf`.
- The numpy and pandas branches of `toLiteral`/`getLiteral` are left out, because those libraries are not modelled. Floats are carried by their `str()` text, and datetime and timestamp formatting (`committed_date`, `addOntologyCreationDate`) is not modelled.
- `textdistance` similarity (`get_most_similar_values`) and the openpyxl formatting and table helpers of `sos_terminology.py` are left out. `get_sheet_dict` works on the rows of cell values, not on a workbook.
- `array_to_string` in `sos_terminology.py` (91-109) is the same code as the toolbox's. `SoSToolbox.ArrayToString` models both.
- The process-global singleton `SoSOntology.instance` and `get_files_paths` are left out because they depend on the environment.
- The following read-side operations are not part of this model. They only assemble lists or counts from the same graph reads, or read files:
  - `get_models_list`, `get_models_status` and `get_models_nodes_and_links*` (the last is not defined in the repository);
  - `get_study_ontology_data`, `get_full_*_list`, `get_general_information` and `get_entity_count`;
  - `exportOntology`, `createDecentralizedSoSOntologyABox` and `addOntologyCreationDate`;
  - `get_markdown_documentation` (markdown and base64 images).
- The in-place removal of list markers from the caller's own list is not captured. `toLiteral` and `getLiteral` (sos_ontology/core/ontology.py:299-301 and 324-326) and `array_to_string` (sos_ontology/core/sos_toolbox.py:28-34) call `list.remove` on the list they were given. Ontology.Ontology.ToLiteral, Ontology.Ontology.GetLiteral, SoSToolbox.ArrayToString and PyList.RemoveMarkers return the pruned list as a new value, and the caller's list is left as it was.
- `sos_coupling.py` is not part of this model. `SoSCoupling` carries only the fields the extractor passes it (sos_ontology/core/sos_decentralized_codedataextractor.py:1070-1078).

The model assumes the evident intent where the code as written raises:
- The extractor passes `type=` to `SoSDiscipline` (sos_ontology/core/sos_decentralized_codedataextractor.py:516). `SoSDiscipline.__init__` (sos_ontology/core/sos_entities/sos_discipline.py:21-38) names that parameter `maturity` and takes no other keywords, so the call raises `TypeError`. The graph builder reads `.type` (sos_ontology/core/sos_ontology.py:1243). The model's discipline has a field `type` set from that argument.
- `Parameter` as written (sos_ontology/core/sos_entities/parameter.py) lacks members that other files use, so those calls raise `AttributeError`: `add_disciplineUsingParameter` (sos_ontology/core/sos_entities/parameter_usage.py:89), `add_code_repository_attributes` (sos_ontology/core/sos_decentralized_codedataextractor.py:885), `code_repositories_attributes`, `disciplinesUsingParameterIDs`, `datatype_list` and `unit_list`. The model gives them the least behaviour their callers need: a list field, or an append without repeats.

Ways the model differs from Python:
- `repr()` of a string always quotes with `'` and escapes nothing. Python switches to `"` when the text holds a `'` and escapes backslashes and control characters.
- `str.title`, `lower` and whitespace are ASCII only. Full Unicode case mapping is not modelled.
- Python set iteration order is arbitrary. Where the source iterates a set, the model fixes an order:
  - the no-parameter-info list of `generate_full_extraction_logs` takes the values in order of first appearance;
  - the model-list filter picks its elements with `:|`, and its contracts hold for every order.
  - `diffDictElements` (sos_ontology/core/sos_toolbox.py:82-91) fills `removed_list` and `new_list` in the iteration order of a set. `SoSToolbox.CollectMissing` picks the ids with `:|` and states which ids each list holds, each once, but not their order.
- `graph.value(..., any=True)` returns an arbitrary match. The read methods choose with `:|`, and their contracts are stated for any choice.
- `diffDictElements` receives each snapshot as a list of pairs: an entity kind and the list of its entities' ids. The lookups `entityDict[0]` and `e['id']` (sos_ontology/core/sos_toolbox.py:75 and 78) are not modelled. An empty entity list or an entity without an `id`, on which Python raises, cannot be expressed.
- A `children` entry of None in a tree node is treated like an absent one.
- `linked_process_dict` set to None, which makes `get_models_list_filtered` raise a `TypeError`, is not modelled.
- Parameter nodes handed to `get_treeview_coupling_parameters` are required to carry an `id` key.
- The accumulators `treeNodes`, `parameterNodes` and `hierarchyLinks` of the tree walk are passed in and returned as values rather than mutated in place. The partial lists a caller would see after an exception are therefore not modelled.

Weaker contracts:
- SoSOntology.SoSOntology.GetTreeviewNodesAndLinks: the label and definition of each record are stated only through `DisciplineTreeRecord` (there exists a reading of the graph that gives them). A failure is stated only as the presence of an IRI-valued attribute in the graph. The coupling nodes the walk appends are stated as a set of ids, with no repeat, after the nodes held before; their order and their metadata are stated node by node by `AddTreeRecord`, not over the whole walk.
- SoSOntology.SoSOntology.WalkTreeviewChildren: the coupling nodes of the children's walks are stated as a set of ids, with no repeat, after the nodes held before; their order and metadata are not stated over the whole loop.
- SoSOntology.SoSOntology.GetN2Matrix: the same limits as `GetTreeviewNodesAndLinks`, whose result it returns. The parameter nodes are stated by their ids, exactly the coupling names of the shown nodes, each once, not by their order or metadata.
- SoSOntology.SoSOntology.AddTreeRecord: the label and definition of the record are stated only through `DisciplineTreeRecord`, and a failure only as the presence of an IRI-valued attribute in the graph.
- SoSOntology.SoSOntology.GetModelsListFiltered: the row of a listed discipline is stated. The filed process labels per repository are stated only by their count and their lack of repeats.
- SoSOntology.SoSOntology.ModelRow: `processesUsingModelList` is stated only by its total, which equals `processesUsingModel` and is positive, and by its repository labels having no repeats. Which process labels are filed under which repository label is not stated. Both labels come from metadata reads through `graph.value(..., any=True)`, which the model chooses with `:|`.
- SoSOntology.SoSOntology.FileUsedProcesses: the filed processes are stated only by their total and by their repository labels having no repeats, for the same reason as `ModelRow`. Which processes are read, and whether the discipline is authorised, are stated in full.
- SoSOntology.SoSOntology.FileProcess: only the grouping per repository label and the total count are stated, not which labels are filed.
- SoSOntology.SoSOntology.FileMatch: only that the filing holds one more process, with one entry per repository label, is stated; which label is filed under which repository label is not.
- SoSOntology.SoSOntology.GetMetadata: a failure is stated only as the presence of an IRI-valued attribute in the graph.
- SoSOntology.SoSOntology.AnswerKind: a failure is stated only as the presence of an IRI-valued attribute in the graph.
- SoSOntology.SoSOntology.GetParameterUsageMetadata: the `uri` entry is the IRI's text as a string value, not an rdflib `URIRef`. A usage with a parameter fails only when the usage or its parameter has an IRI object under a listed predicate, but such an object does not always make it fail. `graph.value(..., any=True)` (sos_ontology/core/ontology.py:163-164) may pick a literal object of the same predicate instead.
- SoSExtractor.CodeDataExtractor.ApplyGlossaryRows: when no repository is registered under the glossary's id, the source updates the first matching parameter before raising `AttributeError`. The model states only the exception, not that partial update.
- SoSExtractor.CodeDataExtractor.ReadGlossary: the same partial update before the `AttributeError` is not stated.
- SoSExtractor.CodeDataExtractor.RetrieveParameterGlossary: the same partial update is not stated. When the call that logs an absent glossary itself raises, the outcome is not stated either.
