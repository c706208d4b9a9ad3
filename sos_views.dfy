/** The shapes the read side of `sos_ontology.py` hands to the web service:
    the metadata records of single entities, the flattening of a process
    tree into tree nodes and `PART_OF` links, the coupling-parameter nodes
    and the rows of the filtered model list.  Everything here is a value;
    the graph reads that feed it are methods of `SoSOntology`. */
module SoSViews {
  import opened Wrappers
  import opened PyValue
  import opened PyDict
  import PyStr
  import PyList
  import opened Ontology

  // ---------------------------------------------------------------- metadata records

  /** `{'id': x, 'label': x}`: the record of an id the graph does not know,
      or knows under another class. */
  function NotFound(id: string): (r: Dict<string, Value>)
    ensures KeySet(r) == {"id", "label"}
    ensures Get(r, "id") == Some(VStr(id)) && Get(r, "label") == Some(VStr(id))
  {
    var r := [("id", VStr(id)), ("label", VStr(id))];
    assert r[0].0 == "id" && r[1].0 == "label";
    r
  }

  /** The attributes each `get_*_metadata` copies from the entity's node. */
  const ParameterAttributeList: seq<string> := ["uri", "datatype", "unit", "definition", "definitionSource", "ACLTag"]
  const DisciplineAttributeList: seq<string> :=
    ["uri", "description", "pythonClass", "outputParameterUsagesQuantity", "inputParameterUsagesQuantity",
     "modelType", "type", "validated", "validated_by", "last_modification_date", "publicationDate",
     "codeRepository", "pythonModulePath", "category", "definition", "version", "source", "icon"]
  const ProcessAttributeList: seq<string> := ["uri", "description", "disciplineList", "pythonModulePath", "repository", "id"]
  const RepositoryAttributeList: seq<string> := ["uri", "description", "processList"]

  /** `if attrs.get(name) is not None: metadata[name] = attrs[name]`. */
  function CopyOne(metadata: seq<(string, Value)>, attrs: seq<(string, Value)>, name: string): seq<(string, Value)> {
    match Get(attrs, name)
    case Some(v) => if v != VNone then Set(metadata, name, v) else metadata
    case None => metadata
  }

  /** The record after the loop over `names`. */
  function Listed(metadata: seq<(string, Value)>, attrs: seq<(string, Value)>, names: seq<string>): seq<(string, Value)>
    decreases |names|
  {
    if |names| == 0 then metadata
    else CopyOne(Listed(metadata, attrs, names[..|names| - 1]), attrs, names[|names| - 1])
  }

  /** The entity attribute `k` is copied. */
  predicate Copied(attrs: seq<(string, Value)>, names: seq<string>, k: string) {
    k in names && Get(attrs, k).Some? && Get(attrs, k).value != VNone
  }

  /** A listed attribute that the node has (and that is not None) is taken
      from the node; every other key keeps its value in the record. */
  lemma {:induction false} ListedGet(metadata: seq<(string, Value)>, attrs: seq<(string, Value)>, names: seq<string>, k: string)
    ensures Get(Listed(metadata, attrs, names), k) == if Copied(attrs, names, k) then Get(attrs, k) else Get(metadata, k)
    decreases |names|
  {
    if |names| > 0 {
      var front := names[..|names| - 1];
      var last := names[|names| - 1];
      ListedGet(metadata, attrs, front, k);
      var before := Listed(metadata, attrs, front);
      match Get(attrs, last)
      case Some(v) =>
        if v != VNone {
          SetGet(before, last, v, k);
        }
      case None =>
      assert names == front + [last];
    }
  }

  /** Copying keeps the keys of the record distinct. */
  lemma {:induction false} ListedUnique(metadata: seq<(string, Value)>, attrs: seq<(string, Value)>, names: seq<string>)
    requires UniqueKeys(metadata)
    ensures UniqueKeys(Listed(metadata, attrs, names))
    decreases |names|
  {
    if |names| > 0 {
      var before := Listed(metadata, attrs, names[..|names| - 1]);
      ListedUnique(metadata, attrs, names[..|names| - 1]);
      var last := names[|names| - 1];
      if Get(attrs, last).Some? {
        SetUnique(before, last, Get(attrs, last).value);
      }
    }
  }

  /** Copying adds exactly the copied attributes to the keys of the record. */
  lemma ListedKeys(metadata: seq<(string, Value)>, attrs: seq<(string, Value)>, names: seq<string>, k: string)
    ensures HasKey(Listed(metadata, attrs, names), k) <==> HasKey(metadata, k) || Copied(attrs, names, k)
  {
    ListedGet(metadata, attrs, names, k);
  }

  /** The copy loop of each `get_*_metadata`: every listed attribute the
      node has, in list order. */
  method CopyListed(metadata: seq<(string, Value)>, attrs: seq<(string, Value)>, names: seq<string>)
    returns (r: seq<(string, Value)>)
    requires UniqueKeys(metadata)
    ensures r == Listed(metadata, attrs, names) && UniqueKeys(r)
  {
    r := metadata;
    for i := 0 to |names|
      invariant r == Listed(metadata, attrs, names[..i])
    {
      assert names[..i + 1][..i] == names[..i];
      var v := Get(attrs, names[i]);
      if v.Some? && v.value != VNone {
        r := Set(r, names[i], v.value);
      }
    }
    assert names[..|names|] == names;
    ListedUnique(metadata, attrs, names);
  }

  /** `metadata.update(entries)`. */
  function Update(metadata: seq<(string, Value)>, entries: seq<(string, Value)>): seq<(string, Value)>
    decreases |entries|
  {
    if |entries| == 0 then metadata
    else Set(Update(metadata, entries[..|entries| - 1]), entries[|entries| - 1].0, entries[|entries| - 1].1)
  }

  /** A key the update does not mention keeps its value. */
  lemma {:induction false} UpdateGetOther(metadata: seq<(string, Value)>, entries: seq<(string, Value)>, k: string)
    requires !HasKey(entries, k)
    ensures Get(Update(metadata, entries), k) == Get(metadata, k)
    decreases |entries|
  {
    if |entries| > 0 {
      var front := entries[..|entries| - 1];
      forall i | 0 <= i < |front| ensures front[i].0 != k {
        assert front[i] == entries[i];
      }
      UpdateGetOther(metadata, front, k);
      SetGet(Update(metadata, front), entries[|entries| - 1].0, entries[|entries| - 1].1, k);
    }
  }

  /** A key of the update takes the value the update gives it. */
  lemma {:induction false} UpdateGetOwn(metadata: seq<(string, Value)>, entries: seq<(string, Value)>, k: string)
    requires UniqueKeys(entries) && HasKey(entries, k)
    ensures Get(Update(metadata, entries), k) == Get(entries, k)
    decreases |entries|
  {
    var front := entries[..|entries| - 1];
    var last := entries[|entries| - 1];
    assert entries == front + [last];
    SetGet(Update(metadata, front), last.0, last.1, k);
    if last.0 == k {
      GetAt(entries, |entries| - 1);
    } else {
      var i :| 0 <= i < |entries| && entries[i].0 == k;
      assert front[i] == entries[i];
      assert UniqueKeys(front);
      UpdateGetOwn(metadata, front, k);
      GetAt(entries, i);
      GetAt(front, i);
    }
  }

  lemma {:induction false} UpdateUnique(metadata: seq<(string, Value)>, entries: seq<(string, Value)>)
    requires UniqueKeys(metadata)
    ensures UniqueKeys(Update(metadata, entries))
    decreases |entries|
  {
    if |entries| > 0 {
      UpdateUnique(metadata, entries[..|entries| - 1]);
      SetUnique(Update(metadata, entries[..|entries| - 1]), entries[|entries| - 1].0, entries[|entries| - 1].1);
    }
  }

  /** The request kinds `get_metadata` answers, in the order it answers them. */
  const RequestKinds: seq<string> := ["disciplines", "parameters", "process", "repository"]

  /** The kinds of `request` that `get_metadata` answers, in its order. */
  function AnsweredKinds(request: seq<(string, seq<string>)>): (r: seq<string>)
    ensures forall k :: k in r <==> k in RequestKinds && HasKey(request, k)
  {
    (if HasKey(request, "disciplines") then ["disciplines"] else [])
    + (if HasKey(request, "parameters") then ["parameters"] else [])
    + (if HasKey(request, "process") then ["process"] else [])
    + (if HasKey(request, "repository") then ["repository"] else [])
  }

  // ---------------------------------------------------------------- the process tree

  /** One node of the tree view the execution engine hands over:
      `node_type`, `full_namespace`, `name`, `model_name_full_path`, the
      `disc_data` entries by parameter name with their `coupling` flag, and
      the `children` entry when the node has one. */
  datatype TreeNode = TreeNode(nodeType: string, fullNamespace: string, name: string, modelPath: string,
                               discData: Dict<string, bool>, hasChildren: bool, children: seq<TreeNode>)

  /** A node the diagram shows (data nodes are left out). */
  predicate Shown(node: TreeNode) {
    node.nodeType != "data"
  }

  const MultiScenarioTypes: set<string> := {"SoSVerySimpleMultiScenario", "SoSMultiScenario"}
  const ScatterTypes: set<string> := {"SoSDisciplineScatter", "SoSMultiScatterBuilder", "SoSDisciplineGather"}

  /** The children of `node`, `[]` when it has no `children` entry. */
  function ChildrenOf(node: TreeNode): (r: seq<TreeNode>)
    ensures forall c :: c in r ==> c < node
  {
    if node.hasChildren then node.children else []
  }

  // ---- getChildrenList

  /** The nodes below `node`, in pre-order, the node itself excluded. */
  function Below(node: TreeNode): (r: seq<TreeNode>)
    decreases node, 1
  {
    if node.hasChildren then BelowAll(node.children) else []
  }

  /** Each of `nodes` in turn, followed by the nodes below it. */
  function BelowAll(nodes: seq<TreeNode>): (r: seq<TreeNode>)
    decreases nodes, 0
  {
    if |nodes| == 0 then []
    else BelowAll(nodes[..|nodes| - 1]) + [nodes[|nodes| - 1]] + Below(nodes[|nodes| - 1])
  }

  /** The `full_namespace` of each shown node of `nodes`, in order. */
  function ShownNamespaces(nodes: seq<TreeNode>): (r: seq<string>)
    ensures |r| <= |nodes|
  {
    if |nodes| == 0 then []
    else ShownNamespaces(nodes[..|nodes| - 1])
         + (if Shown(nodes[|nodes| - 1]) then [nodes[|nodes| - 1].fullNamespace] else [])
  }

  /** What `getChildrenList` returns for `node`. */
  function ChildrenList(node: TreeNode): seq<string> {
    ShownNamespaces(Below(node))
  }

  lemma {:induction false} ShownNamespacesAppend(a: seq<TreeNode>, b: seq<TreeNode>)
    ensures ShownNamespaces(a + b) == ShownNamespaces(a) + ShownNamespaces(b)
    decreases |b|
  {
    if |b| == 0 {
      assert a + b == a;
    } else {
      var front := b[..|b| - 1];
      ShownNamespacesAppend(a, front);
      assert (a + b)[..|a + b| - 1] == a + front;
      assert (a + b)[|a + b| - 1] == b[|b| - 1];
    }
  }

  /** Every node below `node` is strictly smaller, so the root is never
      among its own children list. */
  lemma {:induction false} BelowSmaller(node: TreeNode)
    ensures forall n :: n in Below(node) ==> n < node
    decreases node, 1
  {
    if node.hasChildren {
      BelowAllSmaller(node.children, node);
    }
  }

  lemma {:induction false} BelowAllSmaller(nodes: seq<TreeNode>, root: TreeNode)
    requires forall c :: c in nodes ==> c < root
    ensures forall n :: n in BelowAll(nodes) ==> n < root
    decreases nodes, 0
  {
    if |nodes| > 0 {
      var front := nodes[..|nodes| - 1];
      var last := nodes[|nodes| - 1];
      assert forall c :: c in front ==> c in nodes;
      BelowAllSmaller(front, root);
      BelowSmaller(last);
      assert last in nodes;
      forall n | n in Below(last) ensures n < root {
        assert n < last;
      }
    }
  }

  /** The children list holds the namespaces of the shown descendants, and
      only those. */
  lemma {:induction false} ChildrenListMembers(node: TreeNode, x: string)
    ensures x in ChildrenList(node) <==> exists n :: n in Below(node) && Shown(n) && n.fullNamespace == x
  {
    ShownNamespacesMembers(Below(node), x);
  }

  lemma {:induction false} ShownNamespacesMembers(nodes: seq<TreeNode>, x: string)
    ensures x in ShownNamespaces(nodes) <==> exists n :: n in nodes && Shown(n) && n.fullNamespace == x
    decreases |nodes|
  {
    if |nodes| > 0 {
      var front := nodes[..|nodes| - 1];
      ShownNamespacesMembers(front, x);
      assert nodes == front + [nodes[|nodes| - 1]];
    }
  }

  /** A node without children, or whose children are all data leaves, has
      an empty children list. */
  lemma LeafChildrenList(node: TreeNode)
    requires forall c :: c in ChildrenOf(node) ==> !Shown(c) && !c.hasChildren
    ensures ChildrenList(node) == []
  {
    forall n | n in Below(node) ensures !Shown(n) {
      BelowAllData(ChildrenOf(node));
    }
    if ChildrenList(node) != [] {
      ChildrenListMembers(node, ChildrenList(node)[0]);
    }
  }

  lemma {:induction false} BelowAllData(nodes: seq<TreeNode>)
    requires forall c :: c in nodes ==> !Shown(c) && !c.hasChildren
    ensures forall n :: n in BelowAll(nodes) ==> !Shown(n)
    decreases |nodes|
  {
    if |nodes| > 0 {
      var front := nodes[..|nodes| - 1];
      assert forall c :: c in front ==> c in nodes;
      BelowAllData(front);
      assert Below(nodes[|nodes| - 1]) == [];
    }
  }

  /** One more node of the pre-order: its namespace when shown, then the
      namespaces below it. */
  lemma ShownNamespacesStep(front: seq<TreeNode>, node: TreeNode, rest: seq<TreeNode>)
    ensures ShownNamespaces(front + [node] + rest)
            == ShownNamespaces(front) + (if Shown(node) then [node.fullNamespace] else []) + ShownNamespaces(rest)
  {
    ShownNamespacesAppend(front + [node], rest);
    assert (front + [node])[..|front|] == front;
  }

  /** The pre-order of one more child. */
  lemma ChildrenListStep(children: seq<TreeNode>, i: nat)
    requires i < |children|
    ensures var child := children[i];
            ShownNamespaces(BelowAll(children[..i + 1]))
            == ShownNamespaces(BelowAll(children[..i])) + (if Shown(child) then [child.fullNamespace] else [])
               + ChildrenList(child)
  {
    assert children[..i + 1][..i] == children[..i];
    ShownNamespacesStep(BelowAll(children[..i]), children[i], Below(children[i]));
  }

  /** `getChildrenList(node, namespace)`. */
  method GetChildrenList(node: TreeNode) returns (ids: seq<string>)
    ensures ids == ChildrenList(node)
  {
    ids := Recurse(node, []);
  }

  /** The closure `recurse` of `getChildrenList`, appending to `acc`: each
      child's namespace when shown, then what is below it. */
  method Recurse(node: TreeNode, acc: seq<string>) returns (out: seq<string>)
    ensures out == acc + ChildrenList(node)
    decreases node
  {
    out := acc;
    if node.hasChildren {
      var i := 0;
      while i < |node.children|
        invariant 0 <= i <= |node.children|
        invariant out == acc + ShownNamespaces(BelowAll(node.children[..i]))
      {
        var child := node.children[i];
        if Shown(child) {
          out := out + [child.fullNamespace];
        }
        out := Recurse(child, out);
        ChildrenListStep(node.children, i);
        i := i + 1;
      }
      assert node.children[..i] == node.children;
    }
  }

  // ---- get_treeview_nodes_and_links

  /** How many children, from the first, the walk descends into: all of
      them, except below a multi-scenario node, where it stops after the
      first shown child. */
  function VisitedCount(node: TreeNode): (k: nat)
    ensures k <= |ChildrenOf(node)|
  {
    if !node.hasChildren then 0
    else if node.nodeType in MultiScenarioTypes then FirstShownEnd(node.children)
    else |node.children|
  }

  /** The length of the prefix of `nodes` up to and including its first
      shown node (all of `nodes` when none is shown). */
  function FirstShownEnd(nodes: seq<TreeNode>): (k: nat)
    ensures k <= |nodes|
  {
    if |nodes| == 0 then 0
    else if Shown(nodes[0]) then 1
    else 1 + FirstShownEnd(nodes[1..])
  }

  /** The children a multi-scenario node visits hold at most one shown
      node, the last one; when none of them is shown, all are visited.
      Any other node visits all its children. */
  lemma VisitedShape(node: TreeNode)
    ensures var k := VisitedCount(node);
            var cs := ChildrenOf(node);
            if node.nodeType in MultiScenarioTypes then
              (forall i :: 0 <= i < k - 1 ==> !Shown(cs[i])) && (k == |cs| || (0 < k && Shown(cs[k - 1])))
            else k == |cs|
  {
    if node.hasChildren {
      FirstShownEndShape(node.children);
    }
  }

  lemma {:induction false} FirstShownEndShape(nodes: seq<TreeNode>)
    ensures var k := FirstShownEnd(nodes);
            (forall i :: 0 <= i < k - 1 ==> !Shown(nodes[i])) && (k == |nodes| || (0 < k && Shown(nodes[k - 1])))
  {
    if |nodes| > 0 && !Shown(nodes[0]) {
      var rest := nodes[1..];
      FirstShownEndShape(rest);
      assert forall i :: 1 <= i < |nodes| ==> nodes[i] == rest[i - 1];
    }
  }

  /** Below a multi-scenario node the walk goes on past a data child and
      stops right after the first shown one. */
  lemma {:induction false} FirstShownEndStep(nodes: seq<TreeNode>, i: nat)
    requires i < FirstShownEnd(nodes)
    ensures if Shown(nodes[i]) then FirstShownEnd(nodes) == i + 1 else i + 1 < FirstShownEnd(nodes) || i + 1 == |nodes|
  {
    if i > 0 {
      FirstShownEndStep(nodes[1..], i - 1);
    } else if !Shown(nodes[0]) && |nodes| > 1 {
      assert FirstShownEnd(nodes[1..]) > 0;
    }
  }

  /** One child further: a multi-scenario node stops right after a shown
      child; otherwise the walk goes on while children remain. */
  lemma VisitedStep(node: TreeNode, i: nat)
    requires i < VisitedCount(node)
    ensures i < |node.children|
    ensures var stop := node.nodeType in MultiScenarioTypes && Shown(node.children[i]);
            (stop ==> i + 1 == VisitedCount(node))
            && (!stop && i + 1 < |node.children| ==> i + 1 < VisitedCount(node))
  {
    if node.nodeType in MultiScenarioTypes {
      FirstShownEndStep(node.children, i);
    }
  }

  /** The node the walk adds for `node`, with the parent and level it is
      reached with. */
  datatype Placed = Placed(node: TreeNode, parent: string, level: int)

  /** The parent namespace the children of `node` are walked under. */
  function ParentBelow(node: TreeNode, parent: string): string {
    if Shown(node) then node.fullNamespace else parent
  }

  /** The level the children of `node` are walked at. */
  function LevelBelow(node: TreeNode, level: int): int {
    if Shown(node) then level + 1 else level
  }

  /** The nodes the walk adds, in order: `node` itself when shown, then the
      walks of the visited children under the new parent and level. */
  function WalkNodes(node: TreeNode, parent: string, level: int): seq<Placed>
    decreases node, 1
  {
    (if Shown(node) then [Placed(node, parent, level)] else [])
    + WalkChildren(node, VisitedCount(node), ParentBelow(node, parent), LevelBelow(node, level))
  }

  /** The walks of the first `k` children of `node`, one after the other. */
  function WalkChildren(node: TreeNode, k: nat, parent: string, level: int): seq<Placed>
    requires k <= |ChildrenOf(node)|
    decreases node, 0, k
  {
    if k == 0 then []
    else WalkChildren(node, k - 1, parent, level) + WalkNodes(node.children[k - 1], parent, level)
  }

  /** The `(source, target)` pairs of the links the walk adds, in order:
      one from each shown visited child to the node's namespace (the
      inherited parent when the node is a data node), each before the
      links of that child's own walk. */
  function WalkLinks(node: TreeNode, parent: string): seq<(string, string)>
    decreases node, 1
  {
    LinkChildren(node, VisitedCount(node), ParentBelow(node, parent))
  }

  /** The links of the first `k` children of `node` and of their walks. */
  function LinkChildren(node: TreeNode, k: nat, parent: string): seq<(string, string)>
    requires k <= |ChildrenOf(node)|
    decreases node, 0, k
  {
    if k == 0 then []
    else
      var child := node.children[k - 1];
      LinkChildren(node, k - 1, parent) + ChildLink(child, parent) + WalkLinks(child, parent)
  }

  /** The link from `child` to `parent`, none for a data node. */
  function ChildLink(child: TreeNode, parent: string): seq<(string, string)> {
    if Shown(child) then [(child.fullNamespace, parent)] else []
  }

  /** Every node the walk adds is shown: data nodes never become tree nodes. */
  lemma {:induction false} WalkNodesShown(node: TreeNode, parent: string, level: int)
    ensures forall x :: x in WalkNodes(node, parent, level) ==> Shown(x.node)
    decreases node, 1
  {
    WalkChildrenShown(node, VisitedCount(node), ParentBelow(node, parent), LevelBelow(node, level));
  }

  lemma {:induction false} WalkChildrenShown(node: TreeNode, k: nat, parent: string, level: int)
    requires k <= |ChildrenOf(node)|
    ensures forall x :: x in WalkChildren(node, k, parent, level) ==> Shown(x.node)
    decreases node, 0, k
  {
    if k > 0 {
      WalkChildrenShown(node, k - 1, parent, level);
      WalkNodesShown(node.children[k - 1], parent, level);
    }
  }

  /** Every shown node the walk reaches, except the one it starts from, is
      the source of exactly one link: there is one link fewer than tree
      nodes when the start is shown, and as many otherwise. */
  lemma {:induction false} WalkCounts(node: TreeNode, parent: string, level: int)
    ensures |WalkNodes(node, parent, level)| == |WalkLinks(node, parent)| + (if Shown(node) then 1 else 0)
    decreases node, 1
  {
    WalkChildrenCounts(node, VisitedCount(node), ParentBelow(node, parent), LevelBelow(node, level));
  }

  lemma {:induction false} WalkChildrenCounts(node: TreeNode, k: nat, parent: string, level: int)
    requires k <= |ChildrenOf(node)|
    ensures |WalkChildren(node, k, parent, level)| == |LinkChildren(node, k, parent)|
    decreases node, 0, k
  {
    if k > 0 {
      WalkChildrenCounts(node, k - 1, parent, level);
      WalkCounts(node.children[k - 1], parent, level);
    }
  }

  /** A link dict of the hierarchy: `source`, `target`, `Type`, `Size` and
      the id `source_TO_target_TYPE_PART_OF`. */
  function LinkRecord(source: string, target: string): Dict<string, Value> {
    var r := [("source", VStr(source)), ("target", VStr(target)), ("Type", VStr("PART_OF")), ("Size", VInt(2)),
              ("id", VStr(source + "_TO_" + target + "_TYPE_" + "PART_OF"))];
    assert r[0].0 == "source" && r[1].0 == "target" && r[2].0 == "Type" && r[3].0 == "Size" && r[4].0 == "id";
    r
  }

  /** A link goes from the child's namespace to its parent's and is named
      after both. */
  lemma LinkRecordFields(source: string, target: string)
    ensures var r := LinkRecord(source, target);
            Get(r, "id") == Some(VStr(source + "_TO_" + target + "_TYPE_PART_OF"))
            && Get(r, "Type") == Some(VStr("PART_OF"))
            && Get(r, "source") == Some(VStr(source)) && Get(r, "target") == Some(VStr(target))
  {
    var r := LinkRecord(source, target);
    assert source + "_TO_" + target + "_TYPE_" + "PART_OF" == source + "_TO_" + target + "_TYPE_PART_OF";
    GetAt(r, 0);
    GetAt(r, 1);
    GetAt(r, 2);
    GetAt(r, 4);
  }

  function LinkRecords(pairs: seq<(string, string)>): (r: seq<Dict<string, Value>>)
    ensures |r| == |pairs| && forall i :: 0 <= i < |r| ==> r[i] == LinkRecord(pairs[i].0, pairs[i].1)
  {
    seq(|pairs|, i requires 0 <= i < |pairs| => LinkRecord(pairs[i].0, pairs[i].1))
  }

  lemma LinkRecordsAppend(a: seq<(string, string)>, b: seq<(string, string)>)
    ensures LinkRecords(a + b) == LinkRecords(a) + LinkRecords(b)
  {
  }

  lemma LinksStep(node: TreeNode, i: nat, parent: string, links: seq<Dict<string, Value>>,
                  before: seq<Dict<string, Value>>, mid: seq<Dict<string, Value>>, after: seq<Dict<string, Value>>)
    requires i < |ChildrenOf(node)|
    requires before == links + LinkRecords(LinkChildren(node, i, parent))
    requires mid == before + (if Shown(node.children[i]) then [LinkRecord(node.children[i].fullNamespace, parent)] else [])
    requires after == mid + LinkRecords(WalkLinks(node.children[i], parent))
    ensures after == links + LinkRecords(LinkChildren(node, i + 1, parent))
  {
    var child := node.children[i];
    var front := LinkChildren(node, i, parent);
    var own := ChildLink(child, parent);
    var below := WalkLinks(child, parent);
    LinkChildrenStep(node, i, parent);
    ChildLinkRecords(child, parent);
    LinkRecordsAppend(front, own);
    LinkRecordsAppend(front + own, below);
    var rf, ro, rb := LinkRecords(front), LinkRecords(own), LinkRecords(below);
    assert LinkRecords(LinkChildren(node, i + 1, parent)) == rf + ro + rb;
    ConcatAssoc(links, rf, ro, rb);
  }

  lemma ConcatAssoc<T>(a: seq<T>, b: seq<T>, c: seq<T>, d: seq<T>)
    ensures a + b + c + d == a + (b + c + d)
  {
  }

  lemma LinkChildrenStep(node: TreeNode, i: nat, parent: string)
    requires i < |ChildrenOf(node)|
    ensures LinkChildren(node, i + 1, parent)
            == LinkChildren(node, i, parent) + ChildLink(node.children[i], parent) + WalkLinks(node.children[i], parent)
  {
  }

  lemma ChildLinkRecords(child: TreeNode, parent: string)
    ensures LinkRecords(ChildLink(child, parent)) == if Shown(child) then [LinkRecord(child.fullNamespace, parent)] else []
  {
  }

  /** The number of `disc_data` entries that are not couplings. */
  function PrivateCount(items: seq<(string, bool)>): (n: nat)
    ensures n <= |items|
  {
    if |items| == 0 then 0
    else PrivateCount(items[..|items| - 1]) + (if items[|items| - 1].1 then 0 else 1)
  }

  /** The record fields of a tree node that the graph does not decide. */
  ghost predicate NodeRecordFits(record: seq<(string, Value)>, x: Placed) {
    var node := x.node;
    Get(record, "id") == Some(VStr(node.fullNamespace))
    && Get(record, "Parent Node") == Some(VStr(x.parent))
    && Get(record, "Name") == Some(VStr(node.name))
    && Get(record, "Type") == Some(VStr("DisciplineNode"))
    && Get(record, "Sub Type") == Some(VStr(node.nodeType))
    && Get(record, "Level") == Some(VInt(x.level))
    && Get(record, "Total Parameters") == Some(VInt(|node.discData|))
    && Get(record, "Total Private Parameters") == Some(VInt(PrivateCount(node.discData)))
    && Get(record, "expandable") == Some(VInt(if |ChildrenOf(node)| > 0 then 1 else 0))
    && Get(record, "childrenIDs") == Some(VList(Strs(ChildrenList(node))))
  }

  /** The record of a shown node before its discipline metadata is merged
      in: `expandable` starts at 0. */
  function TreeRecordBase(x: Placed, privateCount: nat, children: seq<string>): seq<(string, Value)> {
    [("id", VStr(x.node.fullNamespace)), ("Parent Node", VStr(x.parent)), ("Name", VStr(x.node.name)),
     ("Type", VStr("DisciplineNode")), ("Sub Type", VStr(x.node.nodeType)), ("Level", VInt(x.level)),
     ("Total Parameters", VInt(|x.node.discData|)), ("Total Private Parameters", VInt(privateCount)),
     ("expandable", VInt(0)), ("childrenIDs", VList(Strs(children)))]
  }

  /** One entry of the discipline metadata merged into a tree record: the
      label is kept, the definition is kept as `Definition`, the rest dropped. */
  function AnnotateOne(record: seq<(string, Value)>, entry: (string, Value)): seq<(string, Value)> {
    if entry.0 == "label" then Set(record, "label", entry.1)
    else if entry.0 == "definition" then Set(record, "Definition", entry.1)
    else record
  }

  /** The record after the loop over the discipline metadata. */
  function Annotated(record: seq<(string, Value)>, extra: seq<(string, Value)>): seq<(string, Value)>
    decreases |extra|
  {
    if |extra| == 0 then record
    else AnnotateOne(Annotated(record, extra[..|extra| - 1]), extra[|extra| - 1])
  }

  /** Merging the metadata writes only `label` and `Definition`. */
  lemma {:induction false} AnnotatedGetOther(record: seq<(string, Value)>, extra: seq<(string, Value)>, k: string)
    requires k != "label" && k != "Definition"
    ensures Get(Annotated(record, extra), k) == Get(record, k)
    decreases |extra|
  {
    if |extra| > 0 {
      var before := Annotated(record, extra[..|extra| - 1]);
      AnnotatedGetOther(record, extra[..|extra| - 1], k);
      SetGet(before, "label", extra[|extra| - 1].1, k);
      SetGet(before, "Definition", extra[|extra| - 1].1, k);
    }
  }

  /** The tree record of a shown node: the base record with the metadata
      merged in, and `expandable` set to 1 when the node has children. */
  function TreeRecord(x: Placed, privateCount: nat, children: seq<string>, extra: seq<(string, Value)>)
    : seq<(string, Value)>
  {
    var record := Annotated(TreeRecordBase(x, privateCount, children), extra);
    if |ChildrenOf(x.node)| > 0 then Set(record, "expandable", VInt(1)) else record
  }

  /** The loop over the discipline metadata and the `expandable` update. */
  method BuildTreeRecord(x: Placed, privateCount: nat, children: seq<string>, extra: seq<(string, Value)>)
    returns (record: seq<(string, Value)>)
    ensures record == TreeRecord(x, privateCount, children, extra)
  {
    record := TreeRecordBase(x, privateCount, children);
    for i := 0 to |extra|
      invariant record == Annotated(TreeRecordBase(x, privateCount, children), extra[..i])
    {
      assert extra[..i + 1][..i] == extra[..i];
      var (attr, value) := extra[i];
      if attr == "label" {
        record := Set(record, "label", value);
      } else if attr == "definition" {
        record := Set(record, "Definition", value);
      }
    }
    assert extra[..|extra|] == extra;
    if x.node.hasChildren && |x.node.children| > 0 {
      record := Set(record, "expandable", VInt(1));
    }
  }

  /** The keys of a tree record before the metadata is merged in. */
  const TreeRecordKeys: seq<string> :=
    ["id", "Parent Node", "Name", "Type", "Sub Type", "Level", "Total Parameters",
     "Total Private Parameters", "expandable", "childrenIDs"]

  lemma TreeRecordBaseKeys(x: Placed, privateCount: nat, children: seq<string>)
    ensures var base := TreeRecordBase(x, privateCount, children);
            |base| == |TreeRecordKeys| && (forall i :: 0 <= i < |base| ==> base[i].0 == TreeRecordKeys[i])
            && UniqueKeys(base)
  {
  }

  /** A tree record carries the node's namespace, parent, name, type, level,
      parameter counts, children list and expandability, whatever the
      discipline metadata holds. */
  lemma TreeRecordFits(x: Placed, extra: seq<(string, Value)>)
    ensures NodeRecordFits(TreeRecord(x, PrivateCount(x.node.discData), ChildrenList(x.node), extra), x)
  {
    var base := TreeRecordBase(x, PrivateCount(x.node.discData), ChildrenList(x.node));
    TreeRecordBaseKeys(x, PrivateCount(x.node.discData), ChildrenList(x.node));
    GetAt(base, 0); TreeRecordGet(x, extra, "id");
    GetAt(base, 1); TreeRecordGet(x, extra, "Parent Node");
    GetAt(base, 2); TreeRecordGet(x, extra, "Name");
    GetAt(base, 3); TreeRecordGet(x, extra, "Type");
    GetAt(base, 4); TreeRecordGet(x, extra, "Sub Type");
    GetAt(base, 5); TreeRecordGet(x, extra, "Level");
    GetAt(base, 6); TreeRecordGet(x, extra, "Total Parameters");
    GetAt(base, 7); TreeRecordGet(x, extra, "Total Private Parameters");
    GetAt(base, 8); TreeRecordGet(x, extra, "expandable");
    GetAt(base, 9); TreeRecordGet(x, extra, "childrenIDs");
  }

  /** A key of the base record other than `label` and `Definition` keeps its
      value through the merge; only `expandable` may then be set to 1. */
  lemma TreeRecordGet(x: Placed, extra: seq<(string, Value)>, k: string)
    requires k != "label" && k != "Definition"
    ensures var base := TreeRecordBase(x, PrivateCount(x.node.discData), ChildrenList(x.node));
            Get(TreeRecord(x, PrivateCount(x.node.discData), ChildrenList(x.node), extra), k)
            == if k == "expandable" && |ChildrenOf(x.node)| > 0 then Some(VInt(1)) else Get(base, k)
  {
    var base := TreeRecordBase(x, PrivateCount(x.node.discData), ChildrenList(x.node));
    AnnotatedGetOther(base, extra, k);
    SetGet(Annotated(base, extra), "expandable", VInt(1), k);
  }

  /** A tree record is a dict: merging the metadata never duplicates a key. */
  lemma TreeRecordUnique(x: Placed, privateCount: nat, children: seq<string>, extra: seq<(string, Value)>)
    ensures UniqueKeys(TreeRecord(x, privateCount, children, extra))
  {
    var base := TreeRecordBase(x, privateCount, children);
    TreeRecordBaseKeys(x, privateCount, children);
    AnnotatedUnique(base, extra);
    SetUnique(Annotated(base, extra), "expandable", VInt(1));
  }

  lemma {:induction false} AnnotatedUnique(record: seq<(string, Value)>, extra: seq<(string, Value)>)
    requires UniqueKeys(record)
    ensures UniqueKeys(Annotated(record, extra))
    decreases |extra|
  {
    if |extra| > 0 {
      var before := Annotated(record, extra[..|extra| - 1]);
      AnnotatedUnique(record, extra[..|extra| - 1]);
      SetUnique(before, "label", extra[|extra| - 1].1);
      SetUnique(before, "Definition", extra[|extra| - 1].1);
    }
  }

  /** Each new record fits the node the walk places at its position. */
  ghost predicate RecordsFit(records: seq<Dict<string, Value>>, placed: seq<Placed>) {
    |records| == |placed| && forall i :: 0 <= i < |records| ==> NodeRecordFits(records[i], placed[i])
  }

  lemma RecordsFitAppend(a: seq<Dict<string, Value>>, pa: seq<Placed>, b: seq<Dict<string, Value>>, pb: seq<Placed>)
    requires RecordsFit(a, pa) && RecordsFit(b, pb)
    ensures RecordsFit(a + b, pa + pb)
  {
    PairwiseAppend(a, pa, b, pb, (r, x) => NodeRecordFits(r, x));
  }

  /** A relation that holds position by position on two pairs of sequences
      holds position by position on their concatenations. */
  lemma PairwiseAppend<A, B>(a: seq<A>, pa: seq<B>, b: seq<A>, pb: seq<B>, fits: (A, B) -> bool)
    requires |a| == |pa| && |b| == |pb|
    requires forall i :: 0 <= i < |a| ==> fits(a[i], pa[i])
    requires forall i :: 0 <= i < |b| ==> fits(b[i], pb[i])
    ensures forall i :: 0 <= i < |a| + |b| ==> fits((a + b)[i], (pa + pb)[i])
  {
    assert forall i :: |a| <= i < |a| + |b| ==> (a + b)[i] == b[i - |a|] && (pa + pb)[i] == pb[i - |a|];
  }

  /** `after` is `before` with records appended that fit `placed`, one for one. */
  ghost predicate Walked(before: seq<Dict<string, Value>>, after: seq<Dict<string, Value>>, placed: seq<Placed>) {
    |before| <= |after| && after[..|before|] == before && RecordsFit(after[|before|..], placed)
  }

  lemma WalkedTrans(a: seq<Dict<string, Value>>, b: seq<Dict<string, Value>>, c: seq<Dict<string, Value>>,
                    pa: seq<Placed>, pb: seq<Placed>)
    requires Walked(a, b, pa) && Walked(b, c, pb)
    ensures Walked(a, c, pa + pb)
  {
    assert c[..|a|] == b[..|a|];
    assert c[|a|..] == b[|a|..] + c[|b|..];
    RecordsFitAppend(b[|a|..], pa, c[|b|..], pb);
  }

  lemma WalkedOne(records: seq<Dict<string, Value>>, record: Dict<string, Value>, x: Placed)
    requires NodeRecordFits(record, x)
    ensures Walked(records, records + [record], [x])
  {
    var after := records + [record];
    assert after[..|records|] == records;
    assert after[|records|..] == [record];
  }

  lemma WalkedNone(records: seq<Dict<string, Value>>)
    ensures Walked(records, records, [])
  {
    assert records[..|records|] == records;
  }

  /** The state after the walks of the first `i` children of `node`: the
      records of their walks and their links appended, the parameter nodes kept. */
  ghost predicate ChildrenWalked(node: TreeNode, i: nat, parent: string, level: int,
                                 treeNodes: seq<Dict<string, Value>>, links: seq<Dict<string, Value>>,
                                 parameterNodes: seq<Dict<string, Value>>, treeNodes': seq<Dict<string, Value>>,
                                 links': seq<Dict<string, Value>>, parameterNodes': seq<Dict<string, Value>>)
  {
    i <= |ChildrenOf(node)|
    && Walked(treeNodes, treeNodes', WalkChildren(node, i, parent, level))
    && links' == links + LinkRecords(LinkChildren(node, i, parent))
    && ParametersKept(parameterNodes, parameterNodes')
  }

  /** The parameter nodes only grow, and each has an id. */
  predicate ParametersKept(before: seq<Dict<string, Value>>, after: seq<Dict<string, Value>>) {
    |before| <= |after| && after[..|before|] == before && forall i :: 0 <= i < |after| ==> HasKey(after[i], "id")
  }

  // ---- get_treeview_coupling_parameters

  /** The ids of the parameter nodes already collected. */
  function NodeIds(nodes: seq<Dict<string, Value>>): (r: set<Value>)
    ensures forall v :: v in r <==> exists i :: 0 <= i < |nodes| && Get(nodes[i], "id") == Some(v)
  {
    set i | 0 <= i < |nodes| && Get(nodes[i], "id").Some? :: Get(nodes[i], "id").value
  }

  /** The coupling entries of `items` whose name is not among `known`, in order. */
  function NewCouplings(items: seq<(string, bool)>, known: set<Value>): (r: seq<string>)
    ensures |r| <= |items|
  {
    if |items| == 0 then []
    else
      var last := items[|items| - 1];
      NewCouplings(items[..|items| - 1], known) + (if last.1 && VStr(last.0) !in known then [last.0] else [])
  }

  /** A name gets a node exactly when it is the name of a coupling entry and
      no node had it at the start. */
  lemma {:induction false} NewCouplingsMembers(items: seq<(string, bool)>, known: set<Value>, k: string)
    ensures k in NewCouplings(items, known) <==> (k, true) in items && VStr(k) !in known
  {
    if |items| > 0 {
      NewCouplingsMembers(items[..|items| - 1], known, k);
      assert items == items[..|items| - 1] + [items[|items| - 1]];
    }
  }

  /** Coupling entries with distinct names give coupling nodes with distinct names. */
  lemma {:induction false} NewCouplingsDistinct(items: seq<(string, bool)>, known: set<Value>)
    requires UniqueKeys(items)
    ensures PyList.Distinct(NewCouplings(items, known))
  {
    if |items| > 0 {
      var front, last := items[..|items| - 1], items[|items| - 1];
      NewCouplingsDistinct(front, known);
      NewCouplingsMembers(front, known, last.0);
    }
  }

  /** The names of the coupling entries of `items`, as node ids. */
  function ItemCouplings(items: seq<(string, bool)>): (r: set<Value>)
    ensures forall v :: v in r <==> exists n :: v == VStr(n) && (n, true) in items
  {
    var r := set j | 0 <= j < |items| && items[j].1 :: VStr(items[j].0);
    assert forall n :: (n, true) in items ==> VStr(n) in r by {
      forall n | (n, true) in items ensures VStr(n) in r {
        var j :| 0 <= j < |items| && items[j] == (n, true);
      }
    }
    r
  }

  /** The names of the coupling entries of all the nodes the walk adds. */
  function CouplingNames(placed: seq<Placed>): set<Value> {
    if |placed| == 0 then {} else ItemCouplings(placed[0].node.discData) + CouplingNames(placed[1..])
  }

  /** No two parameter nodes have the same id. */
  predicate IdsDistinct(nodes: seq<Dict<string, Value>>) {
    forall i, j :: 0 <= i < j < |nodes| ==> Get(nodes[i], "id") != Get(nodes[j], "id")
  }

  /** The parameter nodes `after` hold as ids those `before` held and the
      names of the coupling entries of the nodes `placed`; no id is repeated
      when none was before. */
  predicate CouplingIdsWalked(before: seq<Dict<string, Value>>, placed: seq<Placed>, after: seq<Dict<string, Value>>) {
    NodeIds(after) == NodeIds(before) + CouplingNames(placed)
    && (IdsDistinct(before) ==> IdsDistinct(after))
  }

  /** `after` keeps `before` and then holds one node per name of `names`,
      with that name as its id. */
  predicate NamedAfter(before: seq<Dict<string, Value>>, names: seq<string>, after: seq<Dict<string, Value>>) {
    |after| == |before| + |names| && after[..|before|] == before
    && forall i :: 0 <= i < |names| ==> Get(after[|before| + i], "id") == Some(VStr(names[i]))
  }

  /** One node per new coupling name adds exactly the coupling names to the ids. */
  lemma NamedAfterIds(before: seq<Dict<string, Value>>, items: seq<(string, bool)>, after: seq<Dict<string, Value>>)
    requires NamedAfter(before, NewCouplings(items, NodeIds(before)), after)
    ensures NodeIds(after) == NodeIds(before) + ItemCouplings(items)
  {
    var names := NewCouplings(items, NodeIds(before));
    forall v | v in NodeIds(after) ensures v in NodeIds(before) + ItemCouplings(items) {
      var i :| 0 <= i < |after| && Get(after[i], "id") == Some(v);
      if i < |before| {
        assert after[i] == before[i];
      } else {
        NewCouplingsMembers(items, NodeIds(before), names[i - |before|]);
      }
    }
    forall v | v in NodeIds(before) + ItemCouplings(items) ensures v in NodeIds(after) {
      if v in NodeIds(before) {
        var i :| 0 <= i < |before| && Get(before[i], "id") == Some(v);
        assert after[i] == before[i];
      } else {
        var n :| v == VStr(n) && (n, true) in items;
        NewCouplingsMembers(items, NodeIds(before), n);
        var m :| 0 <= m < |names| && names[m] == n;
        assert Get(after[|before| + m], "id") == Some(v);
      }
    }
  }

  /** One node per new coupling name, from entries with distinct names,
      repeats no id when none was repeated before. */
  lemma NamedAfterDistinct(before: seq<Dict<string, Value>>, items: seq<(string, bool)>, after: seq<Dict<string, Value>>)
    requires NamedAfter(before, NewCouplings(items, NodeIds(before)), after)
    requires IdsDistinct(before) && UniqueKeys(items)
    ensures IdsDistinct(after)
  {
    var names := NewCouplings(items, NodeIds(before));
    NewCouplingsDistinct(items, NodeIds(before));
    forall i, j | 0 <= i < j < |after| ensures Get(after[i], "id") != Get(after[j], "id") {
      if j < |before| {
        assert after[i] == before[i] && after[j] == before[j];
      } else if i < |before| {
        var n := names[j - |before|];
        NewCouplingsMembers(items, NodeIds(before), n);
        assert after[i] == before[i];
        assert Get(before[i], "id") == Some(VStr(n)) ==> VStr(n) in NodeIds(before);
      } else {
        assert names[i - |before|] != names[j - |before|];
      }
    }
  }

  lemma {:induction false} CouplingNamesAppend(v: seq<Placed>, w: seq<Placed>)
    ensures CouplingNames(v + w) == CouplingNames(v) + CouplingNames(w)
  {
    if |v| == 0 {
      assert v + w == w;
    } else {
      assert (v + w)[0] == v[0] && (v + w)[1..] == v[1..] + w;
      CouplingNamesAppend(v[1..], w);
    }
  }

  /** A node that is not shown adds no coupling node. */
  lemma CouplingIdsNone(nodes: seq<Dict<string, Value>>)
    ensures CouplingIdsWalked(nodes, [], nodes)
  {
  }

  /** A walk that starts with no parameter nodes ends with exactly one per
      coupling name of the nodes walked. */
  lemma CouplingIdsFromNone(placed: seq<Placed>, after: seq<Dict<string, Value>>)
    requires CouplingIdsWalked([], placed, after)
    ensures NodeIds(after) == CouplingNames(placed) && IdsDistinct(after)
  {
    assert NodeIds([]) == {};
  }

  /** Two walks in turn are one walk over both runs of visits. */
  lemma CouplingIdsTrans(a: seq<Dict<string, Value>>, v: seq<Placed>, b: seq<Dict<string, Value>>, w: seq<Placed>,
                         c: seq<Dict<string, Value>>)
    requires CouplingIdsWalked(a, v, b) && CouplingIdsWalked(b, w, c)
    ensures CouplingIdsWalked(a, v + w, c)
  {
    CouplingNamesAppend(v, w);
  }

  /** One more child's walk extends the walk of the children before it. */
  lemma CouplingsChildStep(node: TreeNode, i: nat, parent: string, level: int, parameterNodes: seq<Dict<string, Value>>,
                           params: seq<Dict<string, Value>>, params': seq<Dict<string, Value>>)
    requires i < |ChildrenOf(node)|
    requires CouplingIdsWalked(parameterNodes, WalkChildren(node, i, parent, level), params)
    requires CouplingIdsWalked(params, WalkNodes(node.children[i], parent, level), params')
    ensures CouplingIdsWalked(parameterNodes, WalkChildren(node, i + 1, parent, level), params')
  {
    assert WalkChildren(node, i + 1, parent, level)
        == WalkChildren(node, i, parent, level) + WalkNodes(node.children[i], parent, level);
    CouplingIdsTrans(parameterNodes, WalkChildren(node, i, parent, level), params,
                     WalkNodes(node.children[i], parent, level), params');
  }

  /** `parameter.split('.')[-2]`, or None when the name has no dot. */
  function InstanceLabel(parameter: string): (r: Option<string>)
    ensures r.None? <==> |PyStr.Split(parameter, ".")| < 2
  {
    var parts := PyStr.Split(parameter, ".");
    if |parts| >= 2 then Some(parts[|parts| - 2]) else None
  }

  /** One entry of the parameter's metadata, as the coupling node keeps it:
      the label gets the instance label appended. */
  function NodeEntry(entry: (string, Value), instance: Option<string>): (string, Value) {
    if entry.0 == "label" && instance.Some? && entry.1.VStr? then (entry.0, VStr(entry.1.s + " " + instance.value))
    else entry
  }

  /** The metadata entries other than `id`, adjusted for the node. */
  function NodeEntries(metadata: seq<(string, Value)>, instance: Option<string>): (r: seq<(string, Value)>)
    ensures !HasKey(r, "id")
    ensures forall i :: 0 <= i < |r| ==> exists j :: 0 <= j < |metadata| && r[i] == NodeEntry(metadata[j], instance)
  {
    if |metadata| == 0 then []
    else
      var front := NodeEntries(metadata[..|metadata| - 1], instance);
      var last := metadata[|metadata| - 1];
      var r := front + (if last.0 != "id" then [NodeEntry(last, instance)] else []);
      assert forall i :: 0 <= i < |front| ==> r[i] == front[i];
      r
  }

  /** The node of one coupling parameter. */
  function CouplingNode(parameter: string, metadata: seq<(string, Value)>, instance: Option<string>): Dict<string, Value> {
    var base := [("id", VStr(parameter)), ("Type", VStr("CouplingParameter")), ("Level", VInt(0))];
    assert base[0].0 == "id" && base[1].0 == "Type" && base[2].0 == "Level";
    UpdateUnique(base, NodeEntries(metadata, instance));
    Update(base, NodeEntries(metadata, instance))
  }

  /** The loop building a coupling node: every metadata entry but `id` in
      turn, the label suffixed with the instance label when there is one. */
  method BuildCouplingNode(parameter: string, metadata: seq<(string, Value)>, instance: Option<string>)
    returns (node: seq<(string, Value)>)
    ensures node == CouplingNode(parameter, metadata, instance)
  {
    var base := [("id", VStr(parameter)), ("Type", VStr("CouplingParameter")), ("Level", VInt(0))];
    node := base;
    for i := 0 to |metadata|
      invariant node == Update(base, NodeEntries(metadata[..i], instance))
    {
      NodeEntriesStep(base, metadata, i, instance);
      if metadata[i].0 != "id" {
        var (attr, value) := NodeEntry(metadata[i], instance);
        node := Set(node, attr, value);
      }
    }
    assert metadata[..|metadata|] == metadata;
  }

  lemma NodeEntriesStep(base: seq<(string, Value)>, metadata: seq<(string, Value)>, i: nat, instance: Option<string>)
    requires i < |metadata|
    ensures var before := Update(base, NodeEntries(metadata[..i], instance));
            Update(base, NodeEntries(metadata[..i + 1], instance))
            == if metadata[i].0 != "id" then Set(before, NodeEntry(metadata[i], instance).0, NodeEntry(metadata[i], instance).1)
               else before
  {
    assert metadata[..i + 1][..i] == metadata[..i];
    var entries := NodeEntries(metadata[..i], instance);
    if metadata[i].0 != "id" {
      var e := NodeEntry(metadata[i], instance);
      assert NodeEntries(metadata[..i + 1], instance) == entries + [e];
      assert (entries + [e])[..|entries|] == entries;
    } else {
      assert NodeEntries(metadata[..i + 1], instance) == entries;
    }
  }

  /** A coupling node is named after its parameter: the metadata never
      overwrites its id. */
  lemma CouplingNodeId(parameter: string, metadata: seq<(string, Value)>, instance: Option<string>)
    ensures Get(CouplingNode(parameter, metadata, instance), "id") == Some(VStr(parameter))
  {
    var base := [("id", VStr(parameter)), ("Type", VStr("CouplingParameter")), ("Level", VInt(0))];
    UpdateGetOther(base, NodeEntries(metadata, instance), "id");
  }

  // ---------------------------------------------------------------- get_models_list_filtered

  /** `ModelStatus.serialize()` of one listed discipline. */
  datatype ModelStatus = ModelStatus(
    name: string, id: Value, definition: Value, modelType: Value, source: Value,
    lastModificationDate: Value, validatedBy: Value, validated: Value, codeRepository: string,
    processesUsingModel: nat, processesUsingModelList: seq<(Value, seq<Value>)>,
    inputsParametersQuantity: Value, outputsParametersQuantity: Value,
    icon: Value, version: Value, category: Value)

  /** `attrs.get(key, default)`. */
  function GetOr(attrs: seq<(string, Value)>, key: string, default: Value): Value {
    Get(attrs, key).GetOr(default)
  }

  /** The listing of a discipline whose node has the attributes `attrs`. */
  function StatusOf(name: string, attrs: seq<(string, Value)>, codeRepository: string, count: nat,
                    processes: seq<(Value, seq<Value>)>): (r: ModelStatus)
  {
    ModelStatus(name, GetOr(attrs, "id", VStr("")), GetOr(attrs, "definition", VStr("")),
                GetOr(attrs, "type", VStr("")), GetOr(attrs, "source", VStr("")),
                GetOr(attrs, "last_modification_date", VStr("")), GetOr(attrs, "validated_by", VStr("")),
                GetOr(attrs, "validated", VStr("NO")), codeRepository, count, processes,
                GetOr(attrs, "inputParameterUsagesQuantity", VStr("")),
                GetOr(attrs, "outputParameterUsagesQuantity", VStr("")),
                GetOr(attrs, "icon", VStr("")), GetOr(attrs, "version", VStr("")), GetOr(attrs, "category", VStr("")))
  }

  /** A discipline node without a `validated` attribute is listed as not
      validated, and one without the other text attributes lists them empty. */
  lemma StatusDefaults(name: string, attrs: seq<(string, Value)>, codeRepository: string, count: nat,
                       processes: seq<(Value, seq<Value>)>)
    ensures var s := StatusOf(name, attrs, codeRepository, count, processes);
            (!HasKey(attrs, "validated") ==> s.validated == VStr("NO"))
            && (HasKey(attrs, "validated") ==> s.validated == Get(attrs, "validated").value)
            && (!HasKey(attrs, "id") ==> s.id == VStr(""))
            && s.name == name && s.codeRepository == codeRepository && s.processesUsingModel == count
  {
  }

  /** The process names of `linked` under the repository `repo`, none when
      the repository is not a key. */
  function LinkedNames(linked: seq<(string, seq<string>)>, repo: string): seq<string> {
    match Get(linked, repo)
    case Some(names) => names
    case None => []
  }

  /** The names of `names` that make the process id `repo.name`. */
  function MatchingNames(names: seq<string>, repo: string, processId: Value): seq<string> {
    if |names| == 0 then []
    else
      MatchingNames(names[..|names| - 1], repo, processId)
      + (if processId == VStr(repo + "." + names[|names| - 1]) then [names[|names| - 1]] else [])
  }

  /** One name further along `names`. */
  lemma MatchingNamesStep(names: seq<string>, i: nat, repo: string, processId: Value)
    requires i < |names|
    ensures MatchingNames(names[..i + 1], repo, processId)
            == MatchingNames(names[..i], repo, processId)
               + (if processId == VStr(repo + "." + names[i]) then [names[i]] else [])
  {
    assert names[..i + 1][..i] == names[..i];
  }

  /** Exactly the names that make the process id are kept. */
  lemma {:induction false} MatchingNamesMembers(names: seq<string>, repo: string, processId: Value, n: string)
    ensures n in MatchingNames(names, repo, processId) <==> n in names && processId == VStr(repo + "." + n)
  {
    if |names| > 0 {
      MatchingNamesMembers(names[..|names| - 1], repo, processId, n);
      assert names == names[..|names| - 1] + [names[|names| - 1]];
    }
  }

  /** A process node read as `attrs` authorises a discipline: its
      `repository` is a key of `linked` and its id is `repository.name` for
      a name listed under that key. */
  predicate Authorises(attrs: seq<(string, Value)>, linked: seq<(string, seq<string>)>) {
    match Get(attrs, "repository")
    case Some(r) =>
      r.VStr? && HasKey(linked, r.s) && exists n :: n in LinkedNames(linked, r.s) && GetOr(attrs, "id", VStr("")) == VStr(r.s + "." + n)
    case None => false
  }

  /** The number of matches a process contributes is positive exactly when
      it authorises the discipline. */
  lemma AuthorisesMatches(attrs: seq<(string, Value)>, linked: seq<(string, seq<string>)>)
    requires Get(attrs, "repository").Some? && Get(attrs, "repository").value.VStr?
    ensures var repo := Get(attrs, "repository").value.s;
            Authorises(attrs, linked) <==>
              HasKey(linked, repo) && |MatchingNames(LinkedNames(linked, repo), repo, GetOr(attrs, "id", VStr("")))| > 0
  {
    var repo := Get(attrs, "repository").value.s;
    var names, id := LinkedNames(linked, repo), GetOr(attrs, "id", VStr(""));
    var m := MatchingNames(names, repo, id);
    if |m| > 0 {
      MatchingNamesMembers(names, repo, id, m[0]);
    }
    if Authorises(attrs, linked) {
      var n :| n in names && id == VStr(repo + "." + n);
      MatchingNamesMembers(names, repo, id, n);
    }
  }

  /** How many names of `linked` under the process's repository make its
      id: the number of times the filter files the process. */
  function FiledCount(attrs: seq<(string, Value)>, linked: seq<(string, seq<string>)>): nat {
    match Get(attrs, "repository")
    case Some(r) =>
      if r.VStr? && HasKey(linked, r.s) then |MatchingNames(LinkedNames(linked, r.s), r.s, GetOr(attrs, "id", VStr("")))|
      else 0
    case None => 0
  }

  /** A process is filed at least once exactly when it authorises the discipline. */
  lemma FiledCountAuthorises(attrs: seq<(string, Value)>, linked: seq<(string, seq<string>)>)
    ensures FiledCount(attrs, linked) > 0 <==> Authorises(attrs, linked)
  {
    if Get(attrs, "repository").Some? && Get(attrs, "repository").value.VStr? {
      AuthorisesMatches(attrs, linked);
    }
  }

  /** `processesDict[repo].append(process)`, or a new list under `repo`. */
  function FileUnder(processes: seq<(Value, seq<Value>)>, repo: Value, process: Value): seq<(Value, seq<Value>)> {
    match Get(processes, repo)
    case Some(list) => Set(processes, repo, list + [process])
    case None => processes + [(repo, [process])]
  }

  /** The number of processes filed under all repositories. */
  function Total(processes: seq<(Value, seq<Value>)>): nat {
    if |processes| == 0 then 0 else |processes[0].1| + Total(processes[1..])
  }

  lemma {:induction false} TotalAppend(a: seq<(Value, seq<Value>)>, b: seq<(Value, seq<Value>)>)
    ensures Total(a + b) == Total(a) + Total(b)
  {
    if |a| > 0 {
      assert (a + b)[1..] == a[1..] + b;
      TotalAppend(a[1..], b);
    } else {
      assert a + b == b;
    }
  }

  lemma {:induction false} TotalSet(processes: seq<(Value, seq<Value>)>, repo: Value, list: seq<Value>)
    requires Get(processes, repo).Some?
    ensures Total(Set(processes, repo, list)) == Total(processes) - |Get(processes, repo).value| + |list|
  {
    if processes[0].0 != repo {
      TotalSet(processes[1..], repo, list);
    }
  }

  /** Filing one process keeps one list per repository and adds one to the total. */
  lemma FileUnderTotal(processes: seq<(Value, seq<Value>)>, repo: Value, process: Value)
    requires UniqueKeys(processes)
    ensures UniqueKeys(FileUnder(processes, repo, process))
    ensures Total(FileUnder(processes, repo, process)) == Total(processes) + 1
    ensures Get(FileUnder(processes, repo, process), repo).Some?
            && process in Get(FileUnder(processes, repo, process), repo).value
  {
    match Get(processes, repo)
    case Some(list) =>
      SetUnique(processes, repo, list + [process]);
      TotalSet(processes, repo, list + [process]);
      SetGet(processes, repo, list + [process], repo);
      assert process == (list + [process])[|list|];
    case None =>
      AppendUnique(processes, repo, [process]);
      TotalAppend(processes, [(repo, [process])]);
      assert Total([(repo, [process])]) == 1;
      SetGet(processes, repo, [process], repo);
      assert process == [process][0];
  }
}
