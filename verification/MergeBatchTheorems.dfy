// What merging batches never loses and never invents.
module MergeBatchTheorems {
  import opened Wrappers
  import opened NodeLists
  import opened NodeIds
  import opened TestedBy
  import opened LinkTests
  import opened LinkTheorems
  import opened EdgeTable
  import opened MergeBatchGraphs

  // ---- ids -----------------------------------------------------------------------------------

  /** Some input node has this (original, nonempty) id. */
  predicate Known(all: seq<BatchNode>, id: string) {
    id != "" && exists i :: 0 <= i < |all| && all[i].id == id
  }

  function LastWith(all: seq<BatchNode>, id: string): (n: BatchNode)
    requires Known(all, id)
    ensures n in all && n.id == id
  {
    var k := |all| - 1;
    if all[k].id == id then all[k] else
      assert forall i :: 0 <= i < k ==> all[..k][i] == all[i];
      LastWith(all[..k], id)
  }

  lemma {:induction false} MappedWasRenamed(all: seq<BatchNode>, id: string)
    ensures id in IdMapping(all) ==> exists n :: n in all && n.id == id && NewId(n) != id
  {
    if all != [] { MappedWasRenamed(all[..|all| - 1], id); }
  }

  /** An original id leads to the new id of the last node that had it, renamed or not. */
  lemma {:induction false} RedirectsToLast(all: seq<BatchNode>, id: string)
    requires Known(all, id)
    ensures Redirected(IdMapping(all), id) == NewId(LastWith(all, id))
  {
    hide NormalizeNodeId;
    var k := |all| - 1;
    var n := all[k];
    if n.id != id {
      assert forall i :: 0 <= i < k ==> all[..k][i] == all[i];
      RedirectsToLast(all[..k], id);
    } else if NewId(n) == id {
      MappedWasRenamed(all[..k], id);
      forall m | m in all[..k] && m.id == id ensures NewId(m) == id {
        RenamedByIdAlone(id, m.shape, n.shape);
      }
    }
  }

  lemma {:induction false} RenamedNodesHave(all: seq<BatchNode>, n: BatchNode)
    requires n in all && n.id != ""
    ensures HasNode(RenamedNodes(all), IdOf, NewId(n))
  {
    hide NewId;
    var k := |all| - 1;
    var before := RenamedNodes(all[..k]);
    if n == all[k] {
      assert RenamedNodes(all)[|before|].id == NewId(n);
    } else {
      RenamedNodesHave(all[..k], n);
      var i :| 0 <= i < |before| && before[i].id == NewId(n);
      assert RenamedNodes(all)[i] == before[i];
    }
  }

  lemma HasNodeMore(s: seq<Node>, n: Node, id: string)
    ensures HasNode(s + [n], IdOf, id) <==> HasNode(s, IdOf, id) || n.id == id
    ensures !HasNode([], IdOf, id)
  {
    assert forall i :: 0 <= i < |s| ==> (s + [n])[i] == s[i];
    assert (s + [n])[|s|] == n;
  }

  /** Deduplicating nodes loses no id. */
  lemma {:induction false} NodesByIdHas(s: seq<Node>, id: string)
    ensures HasNode(NodesById(s), IdOf, id) <==> HasNode(s, IdOf, id)
  {
    hide PutNode, HasNode;
    if s == [] {
      HasNodeMore([], Node("", "", NotAList), id);
    } else {
      var k := |s| - 1;
      NodesByIdHas(s[..k], id);
      PutNodeHas(NodesById(s[..k]), IdOf, s[k], id);
      HasNodeMore(s[..k], s[k], id);
      assert s == s[..k] + [s[k]];
    }
  }

  lemma LinkKeepsIds(conv: Conventions, nodes: seq<Node>, s: seq<Edge>, id: string)
    ensures HasNode(Link(conv, nodes, s).nodes, IdOf, id) <==> HasNode(nodes, IdOf, id)
  {
    hide Linked, Added, ClassesOf, PairSet, SwappedPairs, NewlyTagged;
    var r := Link(conv, nodes, s);
    assert forall i :: 0 <= i < |nodes| ==> r.nodes[i].id == nodes[i].id;
  }

  /** After redirection the end of an edge that named an input node names a node of the output. */
  lemma EndsResolve(conv: Conventions, lower: Lower, batches: seq<Batch>, id: string)
    requires Known(AllNodes(batches), id)
    ensures HasNode(MergedGraph(conv, lower, batches).nodes, IdOf, Redirected(IdMapping(AllNodes(batches)), id))
  {
    hide NewId, Link, HasNode, NodesById, RenamedNodes, Attached, EdgeTable.Merged;
    var all := AllNodes(batches);
    RedirectsToLast(all, id);
    var n := LastWith(all, id);
    RenamedNodesHave(all, n);
    NodesByIdHas(RenamedNodes(all), NewId(n));
    LinkKeepsIds(conv, NodesById(RenamedNodes(all)), RewriteAll(IdMapping(all), AllEdges(batches)), NewId(n));
  }

  // ---- edges -----------------------------------------------------------------------------------

  lemma {:induction false} AttachedHas(lower: Lower, nodes: seq<Node>, s: seq<Edge>, e: Edge)
    requires e in s && HasNode(nodes, IdOf, e.source) && HasNode(nodes, IdOf, e.target)
    ensures Directed(lower, e) in Attached(lower, nodes, s)
  {
    hide HasNode, Directed;
    var k := |s| - 1;
    if e != s[k] { AttachedHas(lower, nodes, s[..k], e); }
  }

  lemma {:induction false} AttachedFrom(lower: Lower, nodes: seq<Node>, s: seq<Edge>, a: Edge)
    requires a in Attached(lower, nodes, s)
    ensures exists e :: e in s && a == Directed(lower, e)
  {
    hide HasNode, Directed;
    var k := |s| - 1;
    if a in Attached(lower, nodes, s[..k]) { AttachedFrom(lower, nodes, s[..k], a); }
  }

  lemma {:induction false} Selected(s: seq<Edge>, tested: bool, e: Edge)
    ensures e in Select(s, tested) <==> e in s && (e.etype == TESTED_BY) == tested
  {
    if s != [] { Selected(s[..|s| - 1], tested, e); }
  }

  /** What deduplication does to one attached edge. */
  lemma Represented(lower: Lower, nodes: seq<Node>, s: seq<Edge>, e: Edge)
    requires e in s && HasNode(nodes, IdOf, e.source) && HasNode(nodes, IdOf, e.target)
    ensures var table := EdgeTable.Merged(EDGES, Attached(lower, nodes, s));
            && Sound(EDGES, table)
            && exists out ::
               out in Values(EDGES, table) && KeyOf(out) == KeyOf(Directed(lower, e)) && !Heavier(e.weight, out.weight)
  {
    hide HasNode, Attached, EdgeTable.Merged, Heavier;
    var a := Attached(lower, nodes, s);
    var table := EdgeTable.Merged(EDGES, a);
    MergedSound(EDGES, a);
    AttachedHas(lower, nodes, s, e);
    var i :| 0 <= i < |a| && a[i] == Directed(lower, e);
    NotOutranked(EDGES, a, i);
    var k := KeyOf(Directed(lower, e));
    var m :| 0 <= m < |table.keys| && table.keys[m] == k;
    assert Values(EDGES, table)[m] == table.byKey[k];
  }

  /** No edge between known nodes is lost: an input edge (other than `tested_by`) whose ends name input
      nodes has, after redirection, an output edge with its key that it does not outweigh. */
  lemma NoKnownEdgeLost(conv: Conventions, lower: Lower, batches: seq<Batch>, e: Edge)
    requires e in AllEdges(batches) && e.etype != TESTED_BY
    requires Known(AllNodes(batches), e.source) && Known(AllNodes(batches), e.target)
    ensures var moved := Directed(lower, Rewrite(IdMapping(AllNodes(batches)), e));
            exists out :: out in MergedGraph(conv, lower, batches).edges
                          && KeyOf(out) == KeyOf(moved) && !Heavier(e.weight, out.weight)
  {
    hide Link, HasNode, NodesById, RenamedNodes, IdMapping, AllEdges, AllNodes, Attached, EdgeTable.Merged, Heavier;
    hide ClassesOf;
    hide NormalizeDirection, Known;
    var all := AllNodes(batches);
    var mapping := IdMapping(all);
    var nodes, s := NodesById(RenamedNodes(all)), RewriteAll(mapping, AllEdges(batches));
    var linked := Link(conv, nodes, s);
    EndsResolve(conv, lower, batches, e.source);
    EndsResolve(conv, lower, batches, e.target);
    var i :| 0 <= i < |s| && AllEdges(batches)[i] == e;
    var moved := s[i];
    LinkConserves(conv, nodes, s);
    Selected(s, false, moved);
    Selected(linked.edges, false, moved);
    Represented(lower, linked.nodes, linked.edges, moved);
  }

  /** Every pairing that can be read after redirection has its edge in the output. */
  lemma NoPairingLost(conv: Conventions, lower: Lower, batches: seq<Batch>, e: Edge, p: Pair)
    requires e in AllEdges(batches)
    requires var all := AllNodes(batches);
             Pairs(ClassesOf(conv, NodesById(RenamedNodes(all))), Rewrite(IdMapping(all), e), p)
    ensures exists out :: out in MergedGraph(conv, lower, batches).edges
                          && out.etype == TESTED_BY && out.source == p.production && out.target == p.test
  {
    hide Link, NodesById, RenamedNodes, IdMapping, AllEdges, AllNodes, Attached, EdgeTable.Merged, Heavier;
    hide NormalizeDirection;
    var all := AllNodes(batches);
    var nodes, s := NodesById(RenamedNodes(all)), RewriteAll(IdMapping(all), AllEdges(batches));
    var cls, linked := ClassesOf(conv, nodes), Link(conv, nodes, s);
    var i :| 0 <= i < |s| && AllEdges(batches)[i] == e;
    assert Pairs(cls, s[i], p);
    LinkConserves(conv, nodes, s);
    assert Occurs(cls, s, p);
    var j :| 0 <= j < |linked.edges| && Pairs(cls, linked.edges[j], p);
    ClassifiedIsNode(conv, nodes, p.production);
    ClassifiedIsNode(conv, nodes, p.test);
    LinkKeepsIds(conv, nodes, s, p.production);
    LinkKeepsIds(conv, nodes, s, p.test);
    Represented(lower, linked.nodes, linked.edges, linked.edges[j]);
  }

  lemma ClassifiedIsNode(conv: Conventions, nodes: seq<Node>, id: string)
    ensures id in ClassesOf(conv, nodes) ==> HasNode(nodes, IdOf, id)
  {
    if id in ClassesOf(conv, nodes) {
      var n :| n in nodes && n.id == id;
      var i :| 0 <= i < |nodes| && nodes[i] == n;
    }
  }

  /** What step 6 writes is some edge the linker left, with a canonical direction. */
  lemma DeduplicatedFrom(lower: Lower, nodes: seq<Node>, s: seq<Edge>)
    ensures var a := Attached(lower, nodes, s);
            && Sound(EDGES, EdgeTable.Merged(EDGES, a))
            && var r := Values(EDGES, EdgeTable.Merged(EDGES, a));
            && (forall i, j :: 0 <= i < j < |r| ==> KeyOf(r[i]) != KeyOf(r[j]))
            && (forall out :: out in r ==> out in a && exists e :: e in s && out == Directed(lower, e))
  {
    hide HasNode, Directed, Attached, EdgeTable.Merged, Heavier;
    var a := Attached(lower, nodes, s);
    MergedSound(EDGES, a);
    forall out | out in Values(EDGES, EdgeTable.Merged(EDGES, a))
      ensures out in a && exists e :: e in s && out == Directed(lower, e)
    {
      var j := WinnerKept(EDGES, a, KeyOf(out));
      AttachedFrom(lower, nodes, s, out);
    }
  }

  /** The output is a graph: ids are unique, both ends of every edge exist, no two edges share source,
      target, type and direction. */
  lemma OutputIsGraph(conv: Conventions, lower: Lower, batches: seq<Batch>)
    ensures var g := MergedGraph(conv, lower, batches);
            && UniqueIds(g.nodes)
            && (forall e :: e in g.edges ==>
                HasNode(g.nodes, IdOf, e.source) && HasNode(g.nodes, IdOf, e.target) && e.direction in DIRECTIONS)
            && (forall i, j :: 0 <= i < j < |g.edges| ==> KeyOf(g.edges[i]) != KeyOf(g.edges[j]))
  {
    hide Link, HasNode, NodesById, RenamedNodes, IdMapping, AllEdges, AllNodes, Attached, EdgeTable.Merged;
    hide NormalizeDirection;
    var all := AllNodes(batches);
    var nodes, s := NodesById(RenamedNodes(all)), RewriteAll(IdMapping(all), AllEdges(batches));
    var linked := Link(conv, nodes, s);
    LinkKeepsUnique(conv, nodes, s);
    DeduplicatedFrom(lower, linked.nodes, linked.edges);
  }

  /** Nothing is invented: an output edge that is not `tested_by` is an input edge, redirected. */
  lemma OutputComesFromInput(conv: Conventions, lower: Lower, batches: seq<Batch>, out: Edge)
    requires out in MergedGraph(conv, lower, batches).edges && out.etype != TESTED_BY
    ensures exists e :: e in AllEdges(batches) && out == Directed(lower, Rewrite(IdMapping(AllNodes(batches)), e))
  {
    hide Link, HasNode, NodesById, RenamedNodes, IdMapping, AllEdges, AllNodes, Attached, EdgeTable.Merged;
    hide NormalizeDirection, ClassesOf;
    var all := AllNodes(batches);
    var nodes, s := NodesById(RenamedNodes(all)), RewriteAll(IdMapping(all), AllEdges(batches));
    var linked := Link(conv, nodes, s);
    DeduplicatedFrom(lower, linked.nodes, linked.edges);
    LinkConserves(conv, nodes, s);
    var moved :| moved in linked.edges && out == Directed(lower, moved);
    Selected(linked.edges, false, moved);
    Selected(s, false, moved);
    var i :| 0 <= i < |s| && s[i] == moved;
    assert AllEdges(batches)[i] in AllEdges(batches);
  }

  /** Where no weight of the key is NaN, the edge it has in the output weighs at least as much. */
  lemma NoWeightLost(conv: Conventions, lower: Lower, batches: seq<Batch>, e: Edge)
    requires e in AllEdges(batches) && e.etype != TESTED_BY
    requires Known(AllNodes(batches), e.source) && Known(AllNodes(batches), e.target)
    requires var mapping := IdMapping(AllNodes(batches));
             forall x :: x in AllEdges(batches)
                         && KeyOf(Directed(lower, Rewrite(mapping, x))) == KeyOf(Directed(lower, Rewrite(mapping, e)))
                         ==> x.weight.Num?
    ensures var moved := Directed(lower, Rewrite(IdMapping(AllNodes(batches)), e));
            exists out :: out in MergedGraph(conv, lower, batches).edges
                          && KeyOf(out) == KeyOf(moved) && out.weight.Num? && out.weight.value >= e.weight.value
  {
    hide MergedGraph, IdMapping, AllEdges, AllNodes, NormalizeDirection, Known;
    NoKnownEdgeLost(conv, lower, batches, e);
    var mapping := IdMapping(AllNodes(batches));
    var out :| out in MergedGraph(conv, lower, batches).edges
               && KeyOf(out) == KeyOf(Directed(lower, Rewrite(mapping, e))) && !Heavier(e.weight, out.weight);
    OutputComesFromInput(conv, lower, batches, out);
    var x :| x in AllEdges(batches) && out == Directed(lower, Rewrite(mapping, x));
  }

  lemma LinkKeepsUnique(conv: Conventions, nodes: seq<Node>, s: seq<Edge>)
    requires UniqueIds(nodes)
    ensures UniqueIds(Link(conv, nodes, s).nodes)
  {
    hide Linked, Added, ClassesOf, PairSet, SwappedPairs, NewlyTagged;
  }
}
