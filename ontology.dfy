/** The triple-store layer: an RDF graph as a finite set of
    (subject, predicate, object) triples, the guarded writes the graph
    builder uses, the new-URI generator and the read-side projections. */
module Ontology {
  import opened Wrappers
  import opened PyValue
  import opened PyDict
  import PyStr
  import PyList

  /** An RDF node: an IRI (`URIRef`) or a literal carried by its Python value. */
  datatype Term = IRI(iri: string) | Lit(value: Value)

  datatype Triple = Triple(s: Term, p: Term, o: Term)

  const RdfType := IRI("http://www.w3.org/1999/02/22-rdf-syntax-ns#type")
  const OwlNamedIndividual := IRI("http://www.w3.org/2002/07/owl#NamedIndividual")

  /** `str(t)`. */
  function TermText(t: Term): string {
    match t
    case IRI(iri) => iri
    case Lit(v) => Str(v)
  }

  /** The objects `add_triple` and `update_triple_object` accept: any IRI, and
      any literal whose value is neither `''` nor None. */
  predicate AcceptedObject(o: Term) {
    o.Lit? ==> o.value != VStr("") && o.value != VNone
  }

  predicate IsSubject(g: set<Triple>, s: Term) {
    exists t :: t in g && t.s == s
  }

  /** The triples whose subject is `s`. */
  function SubjectTriples(g: set<Triple>, s: Term): set<Triple> {
    set t | t in g && t.s == s
  }

  /** The triples of a list, as the set `graph.addN` adds. */
  function TriplesOf(list: seq<Triple>): (r: set<Triple>)
    ensures forall t :: t in r <==> t in list
  {
    set t | t in list
  }

  ghost function Subjects(g: set<Triple>): set<Term> {
    set t | t in g :: t.s
  }

  /** `graph.set((s, p, o))`: every triple on (s, p) is replaced by the one given. */
  function SetObject(g: set<Triple>, x: Triple): set<Triple> {
    (set t | t in g && !(t.s == x.s && t.p == x.p)) + {x}
  }

  /** After `graph.set`, the pair has exactly one object and every other pair
      keeps its triples. */
  lemma SetObjectSingle(g: set<Triple>, x: Triple)
    ensures forall t :: t in SetObject(g, x) && t.s == x.s && t.p == x.p ==> t == x
    ensures x in SetObject(g, x)
    ensures forall t: Triple :: !(t.s == x.s && t.p == x.p) ==> (t in SetObject(g, x) <==> t in g)
  {
  }

  // ---------------------------------------------------------------- new URIs

  /** The punctuation `create_new_URI` turns into word breaks. */
  const SlugBreaks: set<char> := {'-', '(', ')', '|'}

  /** The cleaning of `create_new_URI`: punctuation to spaces, strip, lower
      case, then Title Case with the spaces removed. */
  function Slug(text: string): string {
    var s4 := Spaced(text);
    var s5 := PyStr.Replace(PyStr.Lower(PyStr.Strip(s4)), " ", "_");
    var s6 := PyStr.Replace(s5, "_", " ");
    PyStr.Replace(PyStr.Title(s6), " ", "")
  }

  /** The text with each punctuation mark of `SlugBreaks` turned into a space. */
  function Spaced(text: string): string {
    var s1 := PyStr.Replace(text, "-", " ");
    var s2 := PyStr.Replace(s1, "(", " ");
    var s3 := PyStr.Replace(s2, ")", " ");
    PyStr.Replace(s3, "|", " ")
  }

  lemma SpacedAvoids(text: string)
    ensures PyStr.Avoids(Spaced(text), SlugBreaks)
  {
    var s1 := PyStr.Replace(text, "-", " ");
    var s2 := PyStr.Replace(s1, "(", " ");
    var s3 := PyStr.Replace(s2, ")", " ");
    PyStr.ReplaceCharAvoids(text, '-', " ", {'-'});
    PyStr.ReplaceCharAvoids(s1, '(', " ", {'-', '('});
    PyStr.ReplaceCharAvoids(s2, ')', " ", {'-', '(', ')'});
    PyStr.ReplaceCharAvoids(s3, '|', " ", SlugBreaks);
  }

  /** A slug holds no space, underscore, hyphen, parenthesis or pipe. */
  lemma SlugAvoids(text: string)
    ensures PyStr.Avoids(Slug(text), SlugBreaks + {' ', '_'})
  {
    var s4 := Spaced(text);
    SpacedAvoids(text);
    var st := PyStr.Strip(s4);
    PyStr.StripCharsAvoids(s4, PyStr.Whitespace, SlugBreaks);
    PyStr.CaseAvoids(st, SlugBreaks);
    var s5 := PyStr.Replace(PyStr.Lower(st), " ", "_");
    PyStr.ReplaceCharAvoids(PyStr.Lower(st), ' ', "_", SlugBreaks + {' '});
    var s6 := PyStr.Replace(s5, "_", " ");
    PyStr.ReplaceCharAvoids(s5, '_', " ", SlugBreaks + {'_'});
    PyStr.CaseAvoids(s6, SlugBreaks + {'_'});
    PyStr.ReplaceCharAvoids(PyStr.Title(s6), ' ', "", SlugBreaks + {' ', '_'});
  }

  /** The candidate `namespace + slug + '_' + str(k)`. */
  function Candidate(stem: string, k: nat): Term {
    IRI(stem + "_" + PyStr.NatToString(k))
  }

  /** `uri` is what `create_new_URI(namespace, text)` answers on `g`: the slug
      under `namespace` when no triple has it as subject, else the slug with
      the smallest suffix `_k` (k >= 1) that is no subject. */
  ghost predicate NewURI(g: set<Triple>, namespace: string, text: string, uri: Term) {
    var plain := IRI(namespace + Slug(text));
    (!IsSubject(g, plain) && uri == plain)
    || (IsSubject(g, plain)
        && exists k: nat ::
             (1 <= k && uri == Candidate(namespace + Slug(text), k)
              && !IsSubject(g, uri)
              && forall j: nat :: 1 <= j < k ==> IsSubject(g, Candidate(namespace + Slug(text), j))))
  }

  /** A new URI is the subject of no triple yet. */
  lemma NewURIFresh(g: set<Triple>, namespace: string, text: string, uri: Term)
    requires NewURI(g, namespace, text, uri)
    ensures !IsSubject(g, uri)
  {
  }

  /** Reads the counter back out of a candidate built on `stem`. */
  ghost function CandidateIndex(stem: string, t: Term): int {
    var pre := stem + "_";
    if t.IRI? && |t.iri| >= |pre| && t.iri[..|pre|] == pre
       && forall i :: |pre| <= i < |t.iri| ==> PyStr.IsDigit(t.iri[i])
    then
      var digits := t.iri[|pre|..];
      assert forall i :: 0 <= i < |digits| ==> PyStr.IsDigit(digits[i]) by {
        forall i | 0 <= i < |digits| ensures PyStr.IsDigit(digits[i]) {
          assert digits[i] == t.iri[|pre| + i];
        }
      }
      PyStr.DigitsValue(digits)
    else -1
  }

  lemma CandidateIndexOf(stem: string, k: nat)
    ensures CandidateIndex(stem, Candidate(stem, k)) == k
  {
    var pre := stem + "_";
    var c := Candidate(stem, k);
    assert c.iri[..|pre|] == pre;
    assert c.iri[|pre|..] == PyStr.NatToString(k);
    forall i | |pre| <= i < |c.iri| ensures PyStr.IsDigit(c.iri[i]) {
      assert c.iri[i] == PyStr.NatToString(k)[i - |pre|];
    }
    PyStr.DigitsOfNat(k);
  }

  /** One more taken candidate: it is a subject not seen before. */
  lemma CandidateStep(g: set<Triple>, stem: string, cpt: nat, seen: set<Term>)
    requires 1 <= cpt && IsSubject(g, Candidate(stem, cpt))
    requires seen <= Subjects(g)
    requires forall t :: t in seen ==> 1 <= CandidateIndex(stem, t) < cpt
    requires forall j: nat :: 1 <= j < cpt ==> IsSubject(g, Candidate(stem, j))
    ensures seen + {Candidate(stem, cpt)} <= Subjects(g)
    ensures |seen + {Candidate(stem, cpt)}| == |seen| + 1 <= |Subjects(g)|
    ensures forall t :: t in seen + {Candidate(stem, cpt)} ==> 1 <= CandidateIndex(stem, t) < cpt + 1
    ensures forall j: nat :: 1 <= j < cpt + 1 ==> IsSubject(g, Candidate(stem, j))
  {
    var c := Candidate(stem, cpt);
    CandidateIndexOf(stem, cpt);
    assert c !in seen;
    var w :| w in g && w.s == c;
    assert c in Subjects(g);
    SubsetSize(seen + {c}, Subjects(g));
  }

  lemma SubsetSize<T>(a: set<T>, b: set<T>)
    requires a <= b
    ensures |a| <= |b|
  {
    if a != {} {
      var x :| x in a;
      SubsetSize(a - {x}, b - {x});
    }
  }

  // ---------------------------------------------------------------- literals

  /** The text `toLiteral` gives a value: `' '` for None, for an empty list and
      for types it does not convert; the `',\n'`-join of what the marker loop
      leaves of a list; `str(v)` for int, float, dict and str. */
  function LiteralText(v: Value): string {
    match v
    case VNone => " "
    case VList(items) =>
      var rest := PyList.Pruned(items, 0);
      if |rest| > 0 then PyList.JoinStr(rest) else " "
    case _ => if IsScalarLike(v) then Str(v) else " "
  }

  /** For a list with no two adjacent markers, the literal joins exactly the
      elements that are not None or `'null'`. */
  lemma LiteralTextOfList(items: seq<Value>)
    requires PyList.NoAdjacentMarkers(items)
    ensures var kept := PyList.DropMarkers(items);
            LiteralText(VList(items)) == if |kept| > 0 then PyList.JoinStr(kept) else " "
  {
    PyList.PrunedIsFilter(items);
  }

  /** `dict.get(key)` with Python's None default. */
  function GetOrNone(d: seq<(string, Value)>, key: string): Value {
    match Get(d, key)
    case Some(v) => v
    case None => VNone
  }

  /** What `graph.value(..., returnType)` hands back. */
  datatype Answer = NoValue | Node(t: Term) | Label(text: string) | Plain(v: Value)

  /** The triple `t` fits the pattern: every given component is equal. */
  predicate Matches(t: Triple, s: Option<Term>, p: Option<Term>, o: Option<Term>) {
    (s.None? || t.s == s.value) && (p.None? || t.p == p.value) && (o.None? || t.o == o.value)
  }

  /** The component of `t` at the place the pattern leaves open. */
  function Missing(t: Triple, s: Option<Term>, p: Option<Term>, o: Option<Term>): Term {
    if s.None? then t.s else if p.None? then t.p else t.o
  }

  function OpenPlaces(s: Option<Term>, p: Option<Term>, o: Option<Term>): nat {
    (if s.None? then 1 else 0) + (if p.None? then 1 else 0) + (if o.None? then 1 else 0)
  }

  /** A literal value `getSubjectAttributes` keeps. */
  predicate KeptValue(v: Value) {
    v != VNone && v != VStr("") && v != VStr(" ")
  }

  /** The entries of a key-to-predicate dict whose predicate is an IRI. */
  function IriEntries(d: seq<(string, Option<Term>)>): (r: seq<(string, Term)>)
    ensures |r| <= |d|
    ensures forall i :: 0 <= i < |r| ==> r[i].1.IRI? && (r[i].0, Some(r[i].1)) in d
  {
    if |d| == 0 then []
    else
      var last := d[|d| - 1];
      IriEntries(d[..|d| - 1]) + (if last.1.Some? && last.1.value.IRI? then [(last.0, last.1.value)] else [])
  }

  lemma IriEntriesOfPrefix(d: seq<(string, Option<Term>)>, i: nat)
    requires i < |d|
    ensures IriEntries(d[..i + 1]) ==
            IriEntries(d[..i]) + (if d[i].1.Some? && d[i].1.value.IRI? then [(d[i].0, d[i].1.value)] else [])
  {
    assert d[..i + 1][..i] == d[..i];
  }

  /** `v` is a value `graph.value(s, p, None)` can answer with. */
  ghost predicate ObjectValueOf(g: set<Triple>, s: Term, p: Term, v: Value) {
    (v == VNone && !exists t :: t in g && t.s == s && t.p == p)
    || exists t :: t in g && t.s == s && t.p == p && t.o == Lit(v)
  }

  /** A triple whose predicate is a known attribute and whose literal value
      `getSubjectAttributes` keeps. */
  predicate Contributes(t: Triple, attributeLabels: map<Term, string>) {
    t.p in attributeLabels && t.o.Lit? && KeptValue(t.o.value)
  }

  /** The value under `k` is the subject's uri or label, or the value of one
      contributing triple of `from` whose attribute label is `k`. */
  ghost predicate Explained(attrs: seq<(string, Value)>, k: string, uriText: string, labelText: string,
                            from: set<Triple>, attributeLabels: map<Term, string>) {
    (k == "uri" && Get(attrs, k) == Some(VStr(uriText)))
    || (k == "label" && Get(attrs, k) == Some(VStr(labelText)))
    || exists t :: t in from && Contributes(t, attributeLabels) && attributeLabels[t.p] == k
                   && Get(attrs, k) == Some(t.o.value)
  }

  ghost predicate AllExplained(attrs: seq<(string, Value)>, uriText: string, labelText: string,
                               from: set<Triple>, attributeLabels: map<Term, string>) {
    forall k :: HasKey(attrs, k) ==> Explained(attrs, k, uriText, labelText, from, attributeLabels)
  }

  /** Every contributing triple of `from` has its attribute label stored. */
  ghost predicate AllStored(attrs: seq<(string, Value)>, from: set<Triple>, attributeLabels: map<Term, string>) {
    forall t :: t in from && Contributes(t, attributeLabels) ==> HasKey(attrs, attributeLabels[t.p])
  }

  /** No triple of `from` has a known attribute with an IRI object. */
  ghost predicate NoIriAttribute(from: set<Triple>, attributeLabels: map<Term, string>) {
    forall t :: t in from && t.p in attributeLabels ==> t.o.Lit?
  }

  lemma StoredAfterSet(attrs: seq<(string, Value)>, t: Triple, done: set<Triple>, attributeLabels: map<Term, string>)
    requires Contributes(t, attributeLabels)
    requires AllStored(attrs, done, attributeLabels) && HasKey(attrs, "uri") && HasKey(attrs, "label")
    ensures var next := Set(attrs, attributeLabels[t.p], t.o.value);
            AllStored(next, done + {t}, attributeLabels) && HasKey(next, "uri") && HasKey(next, "label")
  {
    var next := Set(attrs, attributeLabels[t.p], t.o.value);
    assert KeySet(next) == KeySet(attrs) + {attributeLabels[t.p]};
    assert "uri" in KeySet(attrs) && "label" in KeySet(attrs);
    forall w | w in done + {t} && Contributes(w, attributeLabels) ensures HasKey(next, attributeLabels[w.p]) {
      if w != t { assert attributeLabels[w.p] in KeySet(attrs); }
    }
  }

  lemma StoredSkip(attrs: seq<(string, Value)>, t: Triple, done: set<Triple>, attributeLabels: map<Term, string>)
    requires !Contributes(t, attributeLabels)
    requires AllStored(attrs, done, attributeLabels)
    ensures AllStored(attrs, done + {t}, attributeLabels)
  {
  }

  lemma ExplainedGrow(attrs: seq<(string, Value)>, t: Triple, uriText: string, labelText: string,
                      done: set<Triple>, attributeLabels: map<Term, string>)
    requires AllExplained(attrs, uriText, labelText, done, attributeLabels)
    ensures AllExplained(attrs, uriText, labelText, done + {t}, attributeLabels)
  {
    forall k | HasKey(attrs, k) ensures Explained(attrs, k, uriText, labelText, done + {t}, attributeLabels) {
      assert Explained(attrs, k, uriText, labelText, done, attributeLabels);
      if !(k == "uri" && Get(attrs, k) == Some(VStr(uriText))) && !(k == "label" && Get(attrs, k) == Some(VStr(labelText))) {
        var w :| w in done && Contributes(w, attributeLabels) && attributeLabels[w.p] == k && Get(attrs, k) == Some(w.o.value);
        assert w in done + {t};
      }
    }
  }

  /** Storing a contributing triple's value keeps every key explained. */
  lemma ExplainedAfterSet(attrs: seq<(string, Value)>, t: Triple, uriText: string, labelText: string,
                          done: set<Triple>, attributeLabels: map<Term, string>)
    requires Contributes(t, attributeLabels)
    requires AllExplained(attrs, uriText, labelText, done, attributeLabels)
    ensures AllExplained(Set(attrs, attributeLabels[t.p], t.o.value), uriText, labelText, done + {t}, attributeLabels)
  {
    var key := attributeLabels[t.p];
    var next := Set(attrs, key, t.o.value);
    forall k | HasKey(next, k) ensures Explained(next, k, uriText, labelText, done + {t}, attributeLabels) {
      SetGet(attrs, key, t.o.value, k);
      if k == key {
        assert t in done + {t};
      } else {
        assert k in KeySet(next);
        assert HasKey(attrs, k);
        assert Explained(attrs, k, uriText, labelText, done, attributeLabels);
        if !(k == "uri" && Get(attrs, k) == Some(VStr(uriText))) && !(k == "label" && Get(attrs, k) == Some(VStr(labelText))) {
          var w :| w in done && Contributes(w, attributeLabels) && attributeLabels[w.p] == k && Get(attrs, k) == Some(w.o.value);
          assert w in done + {t};
        }
      }
    }
  }

  /** The dict `getSubjectAttributes` starts from: the uri and the label. */
  lemma InitialAttributes(uriText: string, labelText: string, attributeLabels: map<Term, string>)
    ensures var attrs := [("uri", VStr(uriText)), ("label", VStr(labelText))];
            && UniqueKeys(attrs) && HasKey(attrs, "uri") && HasKey(attrs, "label")
            && AllStored(attrs, {}, attributeLabels)
            && AllExplained(attrs, uriText, labelText, {}, attributeLabels)
  {
    var attrs := [("uri", VStr(uriText)), ("label", VStr(labelText))];
    assert attrs[0].0 == "uri" && attrs[1].0 == "label";
    assert Get(attrs, "uri") == Some(VStr(uriText));
    assert Get(attrs, "label") == Some(VStr(labelText));
    forall k | HasKey(attrs, k) ensures Explained(attrs, k, uriText, labelText, {}, attributeLabels) {
      var i :| 0 <= i < |attrs| && attrs[i].0 == k;
    }
  }

  /** One triple of the subject taken into the attribute dict. */
  lemma AttributeStep(attrs: seq<(string, Value)>, t: Triple, uriText: string, labelText: string,
                      done: set<Triple>, attributeLabels: map<Term, string>)
    requires t.p in attributeLabels ==> t.o.Lit?
    requires UniqueKeys(attrs) && NoIriAttribute(done, attributeLabels)
    requires HasKey(attrs, "uri") && HasKey(attrs, "label")
    requires AllStored(attrs, done, attributeLabels)
    requires AllExplained(attrs, uriText, labelText, done, attributeLabels)
    ensures var next := if t.p in attributeLabels && KeptValue(t.o.value)
                        then Set(attrs, attributeLabels[t.p], t.o.value) else attrs;
            && UniqueKeys(next) && NoIriAttribute(done + {t}, attributeLabels)
            && HasKey(next, "uri") && HasKey(next, "label")
            && AllStored(next, done + {t}, attributeLabels)
            && AllExplained(next, uriText, labelText, done + {t}, attributeLabels)
  {
    if t.p in attributeLabels && KeptValue(t.o.value) {
      SetUnique(attrs, attributeLabels[t.p], t.o.value);
      ExplainedAfterSet(attrs, t, uriText, labelText, done, attributeLabels);
      StoredAfterSet(attrs, t, done, attributeLabels);
    } else {
      ExplainedGrow(attrs, t, uriText, labelText, done, attributeLabels);
      StoredSkip(attrs, t, done, attributeLabels);
    }
  }

  /** An RDF graph and the counters `add_triple` keeps. */
  class Ontology {
    var graph: set<Triple>
    /** countAddedTriples['individuals'] */
    var individuals: nat
    /** countAddedTriples['triples'] */
    var triples: nat
    /** `label()`: the preferred label, else the local name (rdflib internals). */
    const labelOf: (set<Triple>, Term) -> string

    constructor(labelOf: (set<Triple>, Term) -> string)
      ensures graph == {} && individuals == 0 && triples == 0
      ensures this.labelOf == labelOf
    {
      graph := {};
      individuals := 0;
      triples := 0;
      this.labelOf := labelOf;
    }

    /** `add_triple`: a None component or the literal `''`/None writes nothing;
        otherwise the triple is added once, and only a new triple moves the
        counters. */
    method AddTriple(s: Option<Term>, p: Option<Term>, o: Option<Term>)
      modifies this
      ensures !(s.Some? && p.Some? && o.Some? && AcceptedObject(o.value)) ==>
                graph == old(graph) && triples == old(triples) && individuals == old(individuals)
      ensures s.Some? && p.Some? && o.Some? && AcceptedObject(o.value) ==>
                var x := Triple(s.value, p.value, o.value);
                graph == old(graph) + {x}
                && triples == old(triples) + (if x in old(graph) then 0 else 1)
                && individuals == old(individuals) +
                     (if x !in old(graph) && x.p == RdfType && x.o == OwlNamedIndividual then 1 else 0)
    {
      if s.Some? && p.Some? && o.Some? {
        if (o.value.Lit? && o.value.value != VStr("") && o.value.value != VNone) || !o.value.Lit? {
          var x := Triple(s.value, p.value, o.value);
          if x !in graph {
            graph := graph + {x};
            triples := triples + 1;
            if x.p == RdfType && x.o == OwlNamedIndividual {
              individuals := individuals + 1;
            }
          }
        }
      }
    }

    /** `update_triple_object`: `graph.set`, the counters untouched; the
        original object is not consulted. */
    method UpdateTripleObject(s: Option<Term>, p: Option<Term>, oOrigin: Option<Term>, oUpdated: Option<Term>)
      modifies this`graph
      ensures s.Some? && p.Some? && oUpdated.Some? && AcceptedObject(oUpdated.value) ==>
                graph == SetObject(old(graph), Triple(s.value, p.value, oUpdated.value))
      ensures !(s.Some? && p.Some? && oUpdated.Some? && AcceptedObject(oUpdated.value)) ==>
                graph == old(graph)
    {
      if s.Some? && p.Some? && oUpdated.Some? {
        var o := oUpdated.value;
        if (o.Lit? && o.value != VStr("") && o.value != VNone) || !o.Lit? {
          graph := SetObject(graph, Triple(s.value, p.value, o));
        }
      }
    }

    /** `add_triples_list` (`graph.addN`): a plain union, with none of the
        filtering of `add_triple` and no counter update. */
    method AddTriplesList(list: seq<Triple>)
      modifies this`graph
      ensures graph == old(graph) + TriplesOf(list)
      ensures forall i :: 0 <= i < |list| ==> list[i] in graph
    {
      graph := graph + TriplesOf(list);
    }

    /** `create_new_URI`: the slug under `namespace` if no triple has it as
        subject, else the slug with the smallest suffix `_k` (k >= 1) that is
        no subject. The graph is only read. */
    method CreateNewURI(namespace: string, text: string) returns (uri: Term)
      ensures NewURI(graph, namespace, text, uri)
    {
      var stem := namespace + Slug(text);
      var plain := IRI(stem);
      if !IsSubject(graph, plain) {
        return plain;
      }
      var cpt: nat := 1;
      ghost var seen: set<Term> := {};
      while IsSubject(graph, Candidate(stem, cpt))
        invariant 1 <= cpt
        invariant forall j: nat :: 1 <= j < cpt ==> IsSubject(graph, Candidate(stem, j))
        invariant seen <= Subjects(graph)
        invariant forall t :: t in seen ==> 1 <= CandidateIndex(stem, t) < cpt
        decreases |Subjects(graph)| - |seen|
      {
        CandidateStep(graph, stem, cpt, seen);
        seen := seen + {Candidate(stem, cpt)};
        cpt := cpt + 1;
      }
      uri := Candidate(stem, cpt);
    }

    /** `toLiteral`: the value as an `xsd:string` literal. */
    method ToLiteral(v: Value) returns (lit: Term)
      ensures lit == Lit(VStr(LiteralText(v)))
    {
      var text := " ";
      if v != VNone {
        if v.VList? {
          var rest := PyList.RemoveMarkers(v.items);
          if |rest| > 0 {
            text := PyList.JoinStr(rest);
          }
        } else if IsScalarLike(v) {
          text := Str(v);
        }
      }
      lit := Lit(VStr(text));
    }

    /** `getLiteral`: `toLiteral` of `d.get(key)`. */
    method GetLiteral(d: seq<(string, Value)>, key: string) returns (lit: Term)
      ensures !HasKey(d, key) ==> lit == Lit(VStr(" "))
      ensures HasKey(d, key) ==> lit == Lit(VStr(LiteralText(Get(d, key).value)))
    {
      lit := ToLiteral(GetOrNone(d, key));
    }

    /** `graph.value(s, p, o, any=True)`: the open component of some matching
        triple, chosen arbitrarily; None when nothing matches or when more
        than one component is open. */
    method Pick(s: Option<Term>, p: Option<Term>, o: Option<Term>) returns (r: Option<Term>)
      requires OpenPlaces(s, p, o) >= 1
      ensures OpenPlaces(s, p, o) >= 2 ==> r.None?
      ensures OpenPlaces(s, p, o) == 1 ==>
                (r.None? <==> !exists t :: t in graph && Matches(t, s, p, o))
      ensures r.Some? ==> exists t :: t in graph && Matches(t, s, p, o) && r.value == Missing(t, s, p, o)
    {
      if OpenPlaces(s, p, o) >= 2 {
        return None;
      }
      if exists t :: t in graph && Matches(t, s, p, o) {
        var t :| t in graph && Matches(t, s, p, o);
        r := Some(Missing(t, s, p, o));
      } else {
        r := None;
      }
    }

    /** `value(s, p, o, returnType)`: the picked node as a label, as itself, or
        as its literal value (an IRI has no `.value`). */
    method ValueOf(s: Option<Term>, p: Option<Term>, o: Option<Term>, returnType: string)
      returns (r: Result<Answer, PyError>)
      requires OpenPlaces(s, p, o) == 1
      ensures (r == Ok(NoValue)) <==> !exists t :: t in graph && Matches(t, s, p, o)
      ensures r.Err? ==> r.error.AttributeError?
      ensures r.Err? ==> returnType == "value"
                         && exists t :: t in graph && Matches(t, s, p, o) && Missing(t, s, p, o).IRI?
      ensures returnType != "value" ==> r.Ok?
      ensures (forall t :: t in graph && Matches(t, s, p, o) ==> Missing(t, s, p, o).Lit?) ==> r.Ok?
      ensures r.Ok? && r.value.Node? ==>
                returnType != "label" && returnType != "value" && exists t :: t in graph && Matches(t, s, p, o) && Missing(t, s, p, o) == r.value.t
      ensures r.Ok? && r.value.Label? ==>
                returnType == "label" && exists t :: t in graph && Matches(t, s, p, o) && labelOf(graph, Missing(t, s, p, o)) == r.value.text
      ensures r.Ok? && r.value.Plain? ==>
                returnType == "value" && exists t :: t in graph && Matches(t, s, p, o) && Missing(t, s, p, o) == Lit(r.value.v)
    {
      var picked := Pick(s, p, o);
      if picked.None? {
        r := Ok(NoValue);
      } else if returnType == "label" {
        r := Ok(Label(labelOf(graph, picked.value)));
      } else if returnType == "uri" {
        r := Ok(Node(picked.value));
      } else if returnType == "value" {
        if picked.value.Lit? {
          r := Ok(Plain(picked.value.value));
        } else {
          r := Err(AttributeError("'URIRef' object has no attribute 'value'"));
        }
      } else {
        r := Ok(Node(picked.value));
      }
    }

    /** The subject carrying the id literal: `value(None, SOS.id, Literal(id), 'uri')`. */
    method FindById(idPredicate: Term, id: string) returns (r: Option<Term>)
      ensures r.None? <==> !exists t :: t in graph && t.p == idPredicate && t.o == Lit(VStr(id))
      ensures r.Some? ==> Triple(r.value, idPredicate, Lit(VStr(id))) in graph
    {
      r := Pick(None, Some(idPredicate), Some(Lit(VStr(id))));
      if r.Some? {
        var t :| t in graph && Matches(t, None, Some(idPredicate), Some(Lit(VStr(id)))) && r.value == t.s;
        assert t == Triple(r.value, idPredicate, Lit(VStr(id)));
      }
    }

    /** `getSubjectAttributes`: `uri` and `label`, then, for every triple of the
        subject whose predicate is a known attribute, the literal's value under
        that attribute's label unless it is None, `''` or `' '`.  An attribute
        whose object is an IRI raises (an IRI has no `.value`). */
    method GetSubjectAttributes(subject: Term, attributeLabels: map<Term, string>)
      returns (r: Result<Dict<string, Value>, PyError>)
      ensures r.Err? <==> exists t :: t in graph && t.s == subject && t.p in attributeLabels && t.o.IRI?
      ensures r.Ok? ==> HasKey(r.value, "uri") && HasKey(r.value, "label")
      ensures r.Ok? ==> AllStored(r.value, SubjectTriples(graph, subject), attributeLabels)
      ensures r.Ok? ==> AllExplained(r.value, TermText(subject), labelOf(graph, subject),
                                     SubjectTriples(graph, subject), attributeLabels)
    {
      var uriText := TermText(subject);
      var labelText := labelOf(graph, subject);
      var attrs: seq<(string, Value)> := [("uri", VStr(uriText)), ("label", VStr(labelText))];
      InitialAttributes(uriText, labelText, attributeLabels);
      ghost var all := SubjectTriples(graph, subject);
      var todo := SubjectTriples(graph, subject);
      ghost var done: set<Triple> := {};
      while todo != {}
        invariant forall t :: t in all <==> t in todo || t in done
        invariant UniqueKeys(attrs)
        invariant NoIriAttribute(done, attributeLabels)
        invariant HasKey(attrs, "uri") && HasKey(attrs, "label")
        invariant AllStored(attrs, done, attributeLabels)
        invariant AllExplained(attrs, uriText, labelText, done, attributeLabels)
        decreases |todo|
      {
        var t :| t in todo;
        if t.p in attributeLabels {
          if t.o.IRI? {
            return Err(AttributeError("'URIRef' object has no attribute 'value'"));
          }
        }
        AttributeStep(attrs, t, uriText, labelText, done, attributeLabels);
        if t.p in attributeLabels && KeptValue(t.o.value) {
          attrs := Set(attrs, attributeLabels[t.p], t.o.value);
        }
        todo := todo - {t};
        done := done + {t};
      }
      assert done == all;
      r := Ok(attrs);
    }

    /** `value(subject, predicate, None, 'value')`, with None for no answer. */
    method ObjectValue(subject: Term, property: Term) returns (r: Result<Value, PyError>)
      ensures r.Ok? ==> ObjectValueOf(graph, subject, property, r.value)
      ensures r.Err? ==> exists t :: t in graph && t.s == subject && t.p == property && t.o.IRI?
    {
      var answer := ValueOf(Some(subject), Some(property), None, "value");
      if answer.Err? {
        return Err(answer.error);
      }
      r := Ok(if answer.value.Plain? then answer.value.v else VNone);
    }

    /** `get_object_values_dict`: for every key whose predicate is an IRI, in
        order, `value(subject, predicate, None, 'value')`, None when the
        subject has no such triple. */
    method GetObjectValuesDict(subject: Term, valuesDict: seq<(string, Option<Term>)>)
      returns (r: Result<seq<(string, Value)>, PyError>)
      ensures r.Ok? ==> |r.value| == |IriEntries(valuesDict)|
      ensures r.Ok? ==> forall i :: 0 <= i < |r.value| ==>
                r.value[i].0 == IriEntries(valuesDict)[i].0
                && ObjectValueOf(graph, subject, IriEntries(valuesDict)[i].1, r.value[i].1)
      ensures r.Err? ==> exists i, t ::
                (0 <= i < |IriEntries(valuesDict)| && t in graph
                 && t.s == subject && t.p == IriEntries(valuesDict)[i].1 && t.o.IRI?)
    {
      var out: seq<(string, Value)> := [];
      var i := 0;
      while i < |valuesDict|
        invariant 0 <= i <= |valuesDict|
        invariant |out| == |IriEntries(valuesDict[..i])|
        invariant forall j :: 0 <= j < |out| ==>
                    out[j].0 == IriEntries(valuesDict[..i])[j].0
                    && ObjectValueOf(graph, subject, IriEntries(valuesDict[..i])[j].1, out[j].1)
      {
        IriEntriesOfPrefix(valuesDict, i);
        var (key, property) := valuesDict[i];
        if property.Some? && property.value.IRI? {
          var answer := ObjectValue(subject, property.value);
          if answer.Err? {
            assert IriEntries(valuesDict[..i + 1])[|out|] == (key, property.value);
            IriEntriesPrefixOf(valuesDict, i + 1);
            return Err(answer.error);
          }
          out := out + [(key, answer.value)];
        }
        i := i + 1;
      }
      assert valuesDict[..i] == valuesDict;
      r := Ok(out);
    }
  }

  /** The IRI entries of a prefix are a prefix of the IRI entries. */
  lemma {:induction false} IriEntriesPrefixOf(d: seq<(string, Option<Term>)>, n: nat)
    requires n <= |d|
    ensures |IriEntries(d[..n])| <= |IriEntries(d)|
    ensures IriEntries(d[..n]) == IriEntries(d)[..|IriEntries(d[..n])|]
    decreases |d| - n
  {
    if n == |d| {
      assert d[..n] == d;
    } else {
      IriEntriesPrefixOf(d, n + 1);
      IriEntriesOfPrefix(d, n);
    }
  }
}
