// Merging subdomain graphs into the saved graph, run after run, with structural edges that could not be
// attached carried over in the report of the previous run.
module MergeSubdomainGraphs {
  import opened Wrappers
  import opened NodeLists
  import opened TestedBy
  import opened EdgeTable

  /** A node; a missing or empty `id` is empty. `data` is everything else it holds. */
  datatype GraphNode = GraphNode(id: string, data: string)

  function IdOf(n: GraphNode): string { n.id }

  datatype GraphFile = GraphFile(nodes: seq<GraphNode>, edges: seq<Edge>)

  datatype Key = Key(source: string, target: string, etype: string)

  /** An entry of the report's `droppedEdges`: the edge and which of its ends were absent. */
  datatype Dropped = Dropped(edge: Edge, source: bool, target: bool)

  const STRUCTURAL_EDGE_TYPES: set<string> := {"contains_flow", "flow_step", "cross_domain"}

  function KeyOf(e: Edge): Key { Key(e.source, e.target, e.etype) }

  function WeightOf(e: Edge): Weight { e.weight }

  const EDGES: Reader<Key, Edge> := Reader(KeyOf, WeightOf)

  // ---- nodes ---------------------------------------------------------------------------------

  function FlatNodes(graphs: seq<GraphFile>): seq<GraphNode> {
    if graphs == [] then [] else FlatNodes(graphs[..|graphs| - 1]) + graphs[|graphs| - 1].nodes
  }

  function FlatEdges(graphs: seq<GraphFile>): seq<Edge> {
    if graphs == [] then [] else FlatEdges(graphs[..|graphs| - 1]) + graphs[|graphs| - 1].edges
  }

  /** Later occurrence wins, in the place of the first; a node without an id is passed over. */
  function PutNamed(nodes: seq<GraphNode>, n: GraphNode): seq<GraphNode> {
    if n.id == "" then nodes
    else PutNode(nodes, IdOf, n)
  }

  function PutAll(nodes: seq<GraphNode>, more: seq<GraphNode>): seq<GraphNode> {
    if more == [] then nodes else PutNamed(PutAll(nodes, more[..|more| - 1]), more[|more| - 1])
  }

  // ---- edges ---------------------------------------------------------------------------------

  predicate BothEnds(nodes: seq<GraphNode>, e: Edge) {
    HasNode(nodes, IdOf, e.source) && HasNode(nodes, IdOf, e.target)
  }

  function ValidOf(nodes: seq<GraphNode>, s: seq<Edge>): (r: seq<Edge>)
    ensures forall e :: e in r <==> e in s && BothEnds(nodes, e)
  {
    if s == [] then []
    else ValidOf(nodes, s[..|s| - 1]) + if BothEnds(nodes, s[|s| - 1]) then [s[|s| - 1]] else []
  }

  /** The report's entry for an edge that is not attached: which of its ends are missing. */
  function Missing(nodes: seq<GraphNode>, e: Edge): Dropped {
    Dropped(e, !HasNode(nodes, IdOf, e.source), !HasNode(nodes, IdOf, e.target))
  }

  function DroppedOf(nodes: seq<GraphNode>, s: seq<Edge>): (r: seq<Dropped>)
    ensures forall d :: d in r ==> d.edge in s && !BothEnds(nodes, d.edge)
    ensures forall e :: e in s && !BothEnds(nodes, e) ==> exists d :: d in r && d.edge == e
  {
    if s == [] then []
    else
      var e := s[|s| - 1];
      var r := DroppedOf(nodes, s[..|s| - 1])
               + if BothEnds(nodes, e) then [] else [Missing(nodes, e)];
      assert !BothEnds(nodes, e) ==> r[|r| - 1].edge == e;
      r
  }

  /** What `load_pending_structural_edges` reads back. */
  function Pending(report: seq<Dropped>): (r: seq<Edge>)
    ensures forall e :: e in r <==> e.etype in STRUCTURAL_EDGE_TYPES && exists d :: d in report && d.edge == e
  {
    if report == [] then []
    else
      var d := report[|report| - 1];
      Pending(report[..|report| - 1]) + if d.edge.etype in STRUCTURAL_EDGE_TYPES then [d.edge] else []
  }

  datatype MergeResult = MergeResult(nodes: seq<GraphNode>, edges: seq<Edge>, dropped: seq<Dropped>)

  ghost function MergeOf(graphs: seq<GraphFile>): MergeResult {
    var nodes, table := PutAll([], FlatNodes(graphs)), Merged(EDGES, FlatEdges(graphs));
    MergedSound(EDGES, FlatEdges(graphs));
    MergeResult(nodes, ValidOf(nodes, Values(EDGES, table)), DroppedOf(nodes, Values(EDGES, table)))
  }

  /** What one run leaves behind for the next. */
  datatype Saved = Saved(graph: Option<GraphFile>, report: seq<Dropped>)

  function Inputs(was: Saved, subdomains: seq<GraphFile>): seq<GraphFile> {
    (if was.graph.Some? then [was.graph.value] else [])
    + subdomains
    + (if Pending(was.report) != [] then [GraphFile([], Pending(was.report))] else [])
  }

  /** One run of `main`; without any subdomain graph it stops before writing anything. */
  ghost function AfterRun(was: Saved, subdomains: seq<GraphFile>): Saved {
    if subdomains == [] then was
    else
      var r := MergeOf(Inputs(was, subdomains));
      Saved(Some(GraphFile(r.nodes, r.edges)), r.dropped)
  }

  // ---- as it runs ------------------------------------------------------------------------------

  /** The node and edge part of `merge_graphs`. */
  method MergeGraphs(graphs: seq<GraphFile>) returns (r: MergeResult)
    ensures r == MergeOf(graphs)
  {
    hide Heavier, IndexOf, PutNamed, Put, ValidOf, DroppedOf, HasNode;
    var nodes: seq<GraphNode> := [];
    var table: Table<Key, Edge> := Table([], map[]);
    for i := 0 to |graphs|
      invariant nodes == PutAll([], FlatNodes(graphs[..i]))
    {
      nodes := PutEach(nodes, FlatNodes(graphs[..i]), graphs[i].nodes);
      assert graphs[..i + 1][..i] == graphs[..i];
    }
    for i := 0 to |graphs|
      invariant table == Merged(EDGES, FlatEdges(graphs[..i]))
    {
      table := PutEachEdge(table, FlatEdges(graphs[..i]), graphs[i].edges);
      assert graphs[..i + 1][..i] == graphs[..i];
    }
    assert graphs[..|graphs|] == graphs;
    MergedSound(EDGES, FlatEdges(graphs));
    var all := Values(EDGES, table);
    var valid: seq<Edge>, dropped: seq<Dropped> := [], [];
    assert all[..0] == [];
    NothingSplit(nodes);
    for i := 0 to |all|
      invariant valid == ValidOf(nodes, all[..i]) && dropped == DroppedOf(nodes, all[..i])
    {
      SplitMore(nodes, all, i);
      var e := all[i];
      if HasNode(nodes, IdOf, e.source) && HasNode(nodes, IdOf, e.target) {
        valid := valid + [e];
      } else {
        dropped := dropped + [Dropped(e, !HasNode(nodes, IdOf, e.source), !HasNode(nodes, IdOf, e.target))];
      }
    }
    assert all[..|all|] == all;
    r := MergeResult(nodes, valid, dropped);
  }

  lemma NothingSplit(nodes: seq<GraphNode>)
    ensures ValidOf(nodes, []) == [] && DroppedOf(nodes, []) == []
  {}

  lemma SplitMore(nodes: seq<GraphNode>, s: seq<Edge>, i: nat)
    requires i < |s|
    ensures BothEnds(nodes, s[i]) ==> ValidOf(nodes, s[..i + 1]) == ValidOf(nodes, s[..i]) + [s[i]]
                                      && DroppedOf(nodes, s[..i + 1]) == DroppedOf(nodes, s[..i])
    ensures !BothEnds(nodes, s[i]) ==> ValidOf(nodes, s[..i + 1]) == ValidOf(nodes, s[..i])
                                       && DroppedOf(nodes, s[..i + 1]) == DroppedOf(nodes, s[..i])
                                          + [Missing(nodes, s[i])]
  {
    assert s[..i + 1][..i] == s[..i];
  }

  method PutEach(start: seq<GraphNode>, before: seq<GraphNode>, more: seq<GraphNode>) returns (nodes: seq<GraphNode>)
    requires start == PutAll([], before)
    ensures nodes == PutAll([], before + more)
  {
    hide IndexOf;
    nodes := start;
    assert before + more[..0] == before;
    for j := 0 to |more|
      invariant nodes == PutAll([], before + more[..j])
    {
      assert (before + more[..j + 1])[..|before| + j] == before + more[..j];
      var node := more[j];
      if node.id != "" {
        var at := IndexOf(nodes, IdOf, node.id);
        if at.Some? { nodes := nodes[at.value := node]; } else { nodes := nodes + [node]; }
      }
    }
    assert more[..|more|] == more;
  }

  method PutEachEdge(start: Table<Key, Edge>, before: seq<Edge>, more: seq<Edge>) returns (table: Table<Key, Edge>)
    requires start == Merged(EDGES, before)
    ensures table == Merged(EDGES, before + more)
  {
    hide Heavier, Merged;
    table := start;
    assert before + more[..0] == before;
    for j := 0 to |more|
      invariant table == Merged(EDGES, before + more[..j])
    {
      assert before + more[..j + 1] == before + more[..j] + [more[j]];
      MergedMore(EDGES, before + more[..j], more[j]);
      var edge := more[j];
      var key := KeyOf(edge);
      if key !in table.byKey {
        table := Table(table.keys + [key], table.byKey[key := edge]);
      } else if Heavier(edge.weight, table.byKey[key].weight) {
        table := table.(byKey := table.byKey[key := edge]);
      }
    }
    assert more[..|more|] == more;
  }

  /** The data directory: the saved graph and the report. */
  class Workspace {
    var graph: Option<GraphFile>
    var report: seq<Dropped>

    constructor ()
      ensures Files() == Saved(None, [])
    {
      graph, report := None, [];
    }

    function Files(): Saved reads this { Saved(graph, report) }

    /** One run over the subdomain graphs that loaded; answers how many pending edges it attached. */
    method Run(subdomains: seq<GraphFile>) returns (recovered: nat)
      modifies this
      ensures Files() == AfterRun(old(Files()), subdomains)
      ensures if subdomains == [] then recovered == 0
              else recovered == |Attached(Pending(old(report)), graph.value.edges)|
    {
      recovered := 0;
      if subdomains == [] { return; }
      var graphs := subdomains;
      if graph.Some? { graphs := [graph.value] + graphs; }
      var pending := Pending(report);
      if pending != [] { graphs := graphs + [GraphFile([], pending)]; }
      assert graphs == Inputs(Files(), subdomains);
      var merged := MergeGraphs(graphs);
      recovered := |Attached(pending, merged.edges)|;
      graph, report := Some(GraphFile(merged.nodes, merged.edges)), merged.dropped;
    }
  }

  /** The pending edges whose key the merged graph has. */
  function Attached(pending: seq<Edge>, merged: seq<Edge>): seq<Edge> {
    if pending == [] then []
    else
      var e := pending[|pending| - 1];
      Attached(pending[..|pending| - 1], merged)
      + if exists m :: m in merged && KeyOf(m) == KeyOf(e) then [e] else []
  }
}
