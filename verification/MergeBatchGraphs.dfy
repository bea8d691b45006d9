// Merging batch results: ids normalized, edges redirected, nodes and edges deduplicated, `tested_by`
// edges linked, dangling edges dropped.
module MergeBatchGraphs {
  import opened Wrappers
  import opened NodeLists
  import opened NodeIds
  import opened TestedBy
  import opened LinkTests
  import opened EdgeTable

  /** A node of a batch file; a missing or empty `id` is empty. */
  datatype BatchNode = BatchNode(id: string, shape: Shape, tags: Tags)

  datatype Batch = Batch(nodes: seq<BatchNode>, edges: seq<Edge>)

  function AllNodes(batches: seq<Batch>): seq<BatchNode> {
    if batches == [] then [] else AllNodes(batches[..|batches| - 1]) + batches[|batches| - 1].nodes
  }

  function AllEdges(batches: seq<Batch>): seq<Edge> {
    if batches == [] then [] else AllEdges(batches[..|batches| - 1]) + batches[|batches| - 1].edges
  }

  // ---- nodes ---------------------------------------------------------------------------------

  function NewId(n: BatchNode): string { NormalizeNodeId(n.id, n.shape) }

  function Renamed(n: BatchNode): Node { Node(NewId(n), n.shape.filePath, n.tags) }

  /** The nodes that have an id, under their new ids. */
  function RenamedNodes(nodes: seq<BatchNode>): seq<Node> {
    if nodes == [] then []
    else
      var n := nodes[|nodes| - 1];
      RenamedNodes(nodes[..|nodes| - 1]) + if n.id == "" then [] else [Renamed(n)]
  }

  /** `id_mapping`: the last renamed node of an id decides. */
  function IdMapping(nodes: seq<BatchNode>): map<string, string> {
    if nodes == [] then map[]
    else
      var n := nodes[|nodes| - 1];
      var mapping := IdMapping(nodes[..|nodes| - 1]);
      if n.id == "" || NewId(n) == n.id then mapping else mapping[n.id := NewId(n)]
  }

  function Redirected(mapping: map<string, string>, id: string): string {
    if id in mapping then mapping[id] else id
  }

  function Rewrite(mapping: map<string, string>, e: Edge): Edge {
    e.(source := Redirected(mapping, e.source), target := Redirected(mapping, e.target))
  }

  function RewriteAll(mapping: map<string, string>, s: seq<Edge>): (r: seq<Edge>)
    ensures |r| == |s| && forall i :: 0 <= i < |s| ==> r[i] == Rewrite(mapping, s[i])
  {
    seq(|s|, i requires 0 <= i < |s| => Rewrite(mapping, s[i]))
  }

  function NodesById(nodes: seq<Node>): (r: seq<Node>)
    ensures UniqueIds(r)
  {
    if nodes == [] then [] else PutNode(NodesById(nodes[..|nodes| - 1]), IdOf, nodes[|nodes| - 1])
  }

  // ---- edges ---------------------------------------------------------------------------------

  datatype Key = Key(source: string, target: string, etype: string, direction: string)

  /** Not read from the text: how Python lower-cases it. */
  type Lower = string -> string

  const DIRECTIONS: set<string> := {"forward", "backward", "bidirectional"}

  function NormalizeDirection(lower: Lower, direction: string): (r: string)
    ensures r in DIRECTIONS
  {
    var candidate := lower(direction);
    var resolved := if candidate == "both" || candidate == "mutual" then "bidirectional" else candidate;
    if resolved in DIRECTIONS then resolved else "forward"
  }

  function Directed(lower: Lower, e: Edge): Edge {
    e.(direction := NormalizeDirection(lower, e.direction))
  }

  function KeyOf(e: Edge): Key { Key(e.source, e.target, e.etype, e.direction) }

  function WeightOf(e: Edge): Weight { e.weight }

  const EDGES: Reader<Key, Edge> := Reader(KeyOf, WeightOf)

  /** The edges both of whose ends are nodes, with their directions made canonical. */
  function Attached(lower: Lower, nodes: seq<Node>, s: seq<Edge>): (r: seq<Edge>)
    ensures forall e :: e in r ==> HasNode(nodes, IdOf, e.source) && HasNode(nodes, IdOf, e.target)
  {
    if s == [] then []
    else
      var e := s[|s| - 1];
      Attached(lower, nodes, s[..|s| - 1])
      + if HasNode(nodes, IdOf, e.source) && HasNode(nodes, IdOf, e.target) then [Directed(lower, e)] else []
  }

  datatype Merged = Merged(nodes: seq<Node>, edges: seq<Edge>)

  ghost function MergedGraph(conv: Conventions, lower: Lower, batches: seq<Batch>): Merged {
    var all := AllNodes(batches);
    var linked := Link(conv, NodesById(RenamedNodes(all)), RewriteAll(IdMapping(all), AllEdges(batches)));
    var table := EdgeTable.Merged(EDGES, Attached(lower, linked.nodes, linked.edges));
    MergedSound(EDGES, Attached(lower, linked.nodes, linked.edges));
    Merged(linked.nodes, Values(EDGES, table))
  }

  /** `merge_and_normalize`, without its reports. */
  method MergeAndNormalize(conv: Conventions, lower: Lower, batches: seq<Batch>)
      returns (nodes: seq<Node>, edges: seq<Edge>)
    ensures Merged(nodes, edges) == MergedGraph(conv, lower, batches)
  {
    hide NewId, NormalizeNodeId, Link, Heavier, IndexOf, HasNode, Directed;
    // Step 1.
    var allNodes: seq<BatchNode> := [];
    var allEdges: seq<Edge> := [];
    for i := 0 to |batches|
      invariant allNodes == AllNodes(batches[..i]) && allEdges == AllEdges(batches[..i])
    {
      assert batches[..i + 1][..i] == batches[..i];
      allNodes, allEdges := allNodes + batches[i].nodes, allEdges + batches[i].edges;
    }
    assert batches[..|batches|] == batches;
    // Step 2.
    var mapping: map<string, string> := map[];
    var withIds: seq<Node> := [];
    for i := 0 to |allNodes|
      invariant mapping == IdMapping(allNodes[..i]) && withIds == RenamedNodes(allNodes[..i])
    {
      assert allNodes[..i + 1][..i] == allNodes[..i];
      var node := allNodes[i];
      if node.id != "" {
        var corrected := NewId(node);
        if corrected != node.id { mapping := mapping[node.id := corrected]; }
        withIds := withIds + [Node(corrected, node.shape.filePath, node.tags)];
      }
    }
    assert allNodes[..|allNodes|] == allNodes;
    // Step 4.
    var rewritten := RewriteLoop(mapping, allEdges);
    // Step 5.
    nodes := [];
    for i := 0 to |withIds|
      invariant nodes == NodesById(withIds[..i])
    {
      assert withIds[..i + 1][..i] == withIds[..i];
      nodes := PutNode(nodes, IdOf, withIds[i]);
    }
    assert withIds[..|withIds|] == withIds;
    // Step 5b.
    var graph := new Graph(nodes, rewritten);
    var added, dropped, tagged, swapped := graph.LinkTests(conv);
    nodes := graph.nodes;
    // Step 6.
    edges := Deduplicate(lower, nodes, graph.edges);
  }

  method RewriteLoop(mapping: map<string, string>, s: seq<Edge>) returns (r: seq<Edge>)
    ensures r == RewriteAll(mapping, s)
  {
    r := s;
    for i := 0 to |s|
      invariant |r| == |s| && r[i..] == s[i..]
      invariant r[..i] == RewriteAll(mapping, s)[..i]
    {
      var src, tgt := Redirected(mapping, r[i].source), Redirected(mapping, r[i].target);
      if src != r[i].source || tgt != r[i].target {
        r := r[i := r[i].(source := src, target := tgt)];
      }
    }
  }

  /** Step 6. */
  method Deduplicate(lower: Lower, nodes: seq<Node>, s: seq<Edge>) returns (r: seq<Edge>)
    ensures Sound(EDGES, EdgeTable.Merged(EDGES, Attached(lower, nodes, s)))
    ensures r == Values(EDGES, EdgeTable.Merged(EDGES, Attached(lower, nodes, s)))
  {
    hide HasNode, Heavier, NormalizeDirection, EdgeTable.Merged, Attached;
    var ids := set i | 0 <= i < |nodes| :: nodes[i].id;
    var table: Table<Key, Edge> := Table([], map[]);
    NoneAttached(lower, nodes);
    assert s[..0] == [];
    for i := 0 to |s|
      invariant table == EdgeTable.Merged(EDGES, Attached(lower, nodes, s[..i]))
    {
      var edge := s[i].(direction := NormalizeDirection(lower, s[i].direction));
      AttachMore(lower, nodes, s, i);
      IdsAreNodes(nodes, edge.source);
      IdsAreNodes(nodes, edge.target);
      if edge.source in ids && edge.target in ids {
        var key := KeyOf(edge);
        if key !in table.byKey {
          table := Table(table.keys + [key], table.byKey[key := edge]);
        } else if Heavier(edge.weight, table.byKey[key].weight) {
          table := table.(byKey := table.byKey[key := edge]);
        }
      }
    }
    assert s[..|s|] == s;
    MergedSound(EDGES, Attached(lower, nodes, s));
    r := Values(EDGES, table);
  }

  lemma NoneAttached(lower: Lower, nodes: seq<Node>)
    ensures EdgeTable.Merged(EDGES, Attached(lower, nodes, [])) == Table([], map[])
  {}

  lemma AttachMore(lower: Lower, nodes: seq<Node>, s: seq<Edge>, i: nat)
    requires i < |s|
    ensures var before, after := Attached(lower, nodes, s[..i]), Attached(lower, nodes, s[..i + 1]);
            EdgeTable.Merged(EDGES, after) ==
            if HasNode(nodes, IdOf, s[i].source) && HasNode(nodes, IdOf, s[i].target)
            then Put(EDGES, EdgeTable.Merged(EDGES, before), Directed(lower, s[i]))
            else EdgeTable.Merged(EDGES, before)
  {
    hide HasNode, Put, NormalizeDirection;
    var before := Attached(lower, nodes, s[..i]);
    assert s[..i + 1][..i] == s[..i];
    if HasNode(nodes, IdOf, s[i].source) && HasNode(nodes, IdOf, s[i].target) {
      var after := before + [Directed(lower, s[i])];
      assert after[..|before|] == before;
      assert Attached(lower, nodes, s[..i + 1]) == after;
    } else {
      assert Attached(lower, nodes, s[..i + 1]) == before;
    }
  }

  lemma IdsAreNodes(nodes: seq<Node>, id: string)
    ensures id in (set i | 0 <= i < |nodes| :: nodes[i].id) <==> HasNode(nodes, IdOf, id)
  {}
}
