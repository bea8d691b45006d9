// What any sequence of merge runs leaves behind, against merging everything at once.
module SubdomainHistories {
  import opened Wrappers
  import opened NodeLists
  import opened TestedBy
  import opened EdgeTable
  import opened MergeSubdomainGraphs

  /** The subdomain graphs of each run, in order. */
  type History = seq<seq<GraphFile>>

  ghost function After(h: History): Saved {
    if h == [] then Saved(None, []) else AfterRun(After(h[..|h| - 1]), h[|h| - 1])
  }

  /** Everything that was ever handed in, in order. */
  function Everything(h: History): seq<GraphFile> {
    if h == [] then [] else Everything(h[..|h| - 1]) + h[|h| - 1]
  }

  function NodesOf(s: Saved): seq<GraphNode> { if s.graph.Some? then s.graph.value.nodes else [] }

  function EdgesOf(s: Saved): seq<Edge> { if s.graph.Some? then s.graph.value.edges else [] }

  predicate InGraph(s: Saved, k: Key) {
    exists e :: e in EdgesOf(s) && KeyOf(e) == k
  }

  predicate InReport(s: Saved, k: Key) {
    exists d :: d in s.report && KeyOf(d.edge) == k
  }

  predicate Seen(h: History, k: Key) {
    exists e :: e in FlatEdges(Everything(h)) && KeyOf(e) == k
  }

  predicate Arrived(h: History, id: string) {
    id != "" && exists n :: n in FlatNodes(Everything(h)) && n.id == id
  }

  predicate BothArrived(h: History, k: Key) {
    Arrived(h, k.source) && Arrived(h, k.target)
  }

  predicate Structural(k: Key) { k.etype in STRUCTURAL_EDGE_TYPES }

  // ---- flattening ------------------------------------------------------------------------------

  lemma FlatNodesMore(s: seq<GraphFile>, f: GraphFile)
    ensures FlatNodes(s + [f]) == FlatNodes(s) + f.nodes
  {
    assert (s + [f])[..|s|] == s;
  }

  lemma {:induction false} FlatNodesConcat(a: seq<GraphFile>, b: seq<GraphFile>)
    ensures FlatNodes(a + b) == FlatNodes(a) + FlatNodes(b)
  {
    if b == [] {
      assert a + b == a;
    } else {
      hide FlatNodes;
      var c, f := b[..|b| - 1], b[|b| - 1];
      FlatNodesConcat(a, c);
      FlatNodesMore(a + c, f);
      FlatNodesMore(c, f);
      assert b == c + [f] && a + b == a + c + [f];
    }
  }

  lemma FlatEdgesMore(s: seq<GraphFile>, f: GraphFile)
    ensures FlatEdges(s + [f]) == FlatEdges(s) + f.edges
  {
    assert (s + [f])[..|s|] == s;
  }

  lemma {:induction false} FlatEdgesConcat(a: seq<GraphFile>, b: seq<GraphFile>)
    ensures FlatEdges(a + b) == FlatEdges(a) + FlatEdges(b)
  {
    if b == [] {
      assert a + b == a;
    } else {
      hide FlatEdges;
      var c, f := b[..|b| - 1], b[|b| - 1];
      FlatEdgesConcat(a, c);
      FlatEdgesMore(a + c, f);
      FlatEdgesMore(c, f);
      assert b == c + [f] && a + b == a + c + [f];
    }
  }

  lemma FlatConcat(a: seq<GraphFile>, b: seq<GraphFile>)
    ensures FlatNodes(a + b) == FlatNodes(a) + FlatNodes(b)
    ensures FlatEdges(a + b) == FlatEdges(a) + FlatEdges(b)
  {
    FlatNodesConcat(a, b);
    FlatEdgesConcat(a, b);
  }

  lemma FlatOne(g: GraphFile)
    ensures FlatNodes([g]) == g.nodes && FlatEdges([g]) == g.edges
  {
    assert [g][..0] == [];
  }

  /** The order in which one run reads: the saved graph, the subdomain graphs, the pending edges. */
  lemma InputsFlat(was: Saved, subdomains: seq<GraphFile>)
    ensures FlatNodes(Inputs(was, subdomains)) == NodesOf(was) + FlatNodes(subdomains)
    ensures FlatEdges(Inputs(was, subdomains)) == EdgesOf(was) + FlatEdges(subdomains) + Pending(was.report)
  {
    hide Pending, FlatNodes, FlatEdges;
    var first: seq<GraphFile> := if was.graph.Some? then [was.graph.value] else [];
    var last: seq<GraphFile> := if Pending(was.report) != [] then [GraphFile([], Pending(was.report))] else [];
    FlatConcat(first + subdomains, last);
    FlatConcat(first, subdomains);
    FlatNone();
    if was.graph.Some? { FlatOne(was.graph.value); }
    FlatOne(GraphFile([], Pending(was.report)));
  }

  lemma FlatNone()
    ensures FlatNodes([]) == [] && FlatEdges([]) == []
  {}

  // ---- nodes -----------------------------------------------------------------------------------

  ghost predicate Clean(nodes: seq<GraphNode>) {
    && (forall i :: 0 <= i < |nodes| ==> nodes[i].id != "")
    && (forall i, j :: 0 <= i < j < |nodes| ==> nodes[i].id != nodes[j].id)
  }

  lemma {:induction false} PutAllClean(nodes: seq<GraphNode>, more: seq<GraphNode>)
    requires Clean(nodes)
    ensures Clean(PutAll(nodes, more))
  {
    if more != [] { PutAllClean(nodes, more[..|more| - 1]); }
  }

  lemma {:induction false} PutAllConcat(nodes: seq<GraphNode>, a: seq<GraphNode>, b: seq<GraphNode>)
    ensures PutAll(nodes, a + b) == PutAll(PutAll(nodes, a), b)
  {
    if b == [] {
      assert a + b == a;
    } else {
      assert (a + b)[..|a| + |b| - 1] == a + b[..|b| - 1];
      PutAllConcat(nodes, a, b[..|b| - 1]);
    }
  }

  /** Merging a merged node list into nothing gives it back. */
  lemma {:induction false} PutAllAgain(nodes: seq<GraphNode>)
    requires Clean(nodes)
    ensures PutAll([], nodes) == nodes
  {
    if nodes != [] {
      var n := |nodes| - 1;
      PutAllAgain(nodes[..n]);
      PutNew(nodes[..n], nodes[n]);
      hide PutNamed;
      assert nodes[..n] + [nodes[n]] == nodes;
    }
  }

  lemma PutNew(nodes: seq<GraphNode>, n: GraphNode)
    requires n.id != "" && forall i :: 0 <= i < |nodes| ==> nodes[i].id != n.id
    ensures PutNamed(nodes, n) == nodes + [n]
  {}

  lemma {:induction false} PutAllHas(more: seq<GraphNode>, id: string)
    ensures HasNode(PutAll([], more), IdOf, id) <==> id != "" && exists n :: n in more && n.id == id
  {
    if more != [] {
      var k := |more| - 1;
      PutAllHas(more[..k], id);
      PutNamedHas(PutAll([], more[..k]), more[k], id);
      assert forall n :: n in more <==> n in more[..k] || n == more[k];
    }
  }

  lemma PutNamedHas(nodes: seq<GraphNode>, n: GraphNode, id: string)
    ensures HasNode(PutNamed(nodes, n), IdOf, id) <==> HasNode(nodes, IdOf, id) || (id != "" && n.id == id)
  {
    hide HasNode, PutNode;
    PutNodeHas(nodes, IdOf, n, id);
  }

  /** Incremental merging of nodes is merging at once: same nodes, same order, latest data. */
  lemma {:induction false} NodesAtOnce(h: History)
    ensures NodesOf(After(h)) == PutAll([], FlatNodes(Everything(h)))
  {
    hide PutAll, FlatNodes;
    if h == [] {
      FlatNone();
      PutAllNone();
    } else {
      var n := |h| - 1;
      var was := After(h[..n]);
      NodesAtOnce(h[..n]);
      FlatConcat(Everything(h[..n]), h[n]);
      if h[n] == [] {
        assert Everything(h) == Everything(h[..n]);
      } else {
        InputsFlat(was, h[n]);
        PutAllClean([], FlatNodes(Everything(h[..n])));
        PutAllAgain(NodesOf(was));
        PutAllConcat([], NodesOf(was), FlatNodes(h[n]));
        PutAllConcat([], FlatNodes(Everything(h[..n])), FlatNodes(h[n]));
      }
    }
  }

  lemma PutAllNone()
    ensures PutAll([], []) == []
  {}

  lemma NodesArrived(h: History, id: string)
    ensures HasNode(NodesOf(After(h)), IdOf, id) <==> Arrived(h, id)
  {
    NodesAtOnce(h);
    PutAllHas(FlatNodes(Everything(h)), id);
  }

  // ---- edges -----------------------------------------------------------------------------------

  /** The edge of a key that a run hands on, in the graph or in the report. */
  predicate Carries(s: Saved, e: Edge) {
    e in EdgesOf(s) || exists d :: d in s.report && d.edge == e
  }

  /** One run decides each key by the same rule as one merge: its winner goes to the graph when both
      ends are there and to the report otherwise, and nothing else is kept. */
  lemma RunDecides(was: Saved, subdomains: seq<GraphFile>)
    requires subdomains != []
    ensures var now, s := AfterRun(was, subdomains), EdgesOf(was) + FlatEdges(subdomains) + Pending(was.report);
            var table := Merged(EDGES, s);
            && Sound(EDGES, table)
            && (forall e :: Carries(now, e) <==> KeyOf(e) in table.byKey && table.byKey[KeyOf(e)] == e)
            && (forall e :: e in EdgesOf(now) <==> Carries(now, e) && BothEnds(NodesOf(now), e))
            && (forall d :: d in now.report ==> !BothEnds(NodesOf(now), d.edge))
  {
    hide FlatEdges, FlatNodes, Pending, BothEnds, Merged, PutAll;
    InputsFlat(was, subdomains);
    var s := EdgesOf(was) + FlatEdges(subdomains) + Pending(was.report);
    var now, table := AfterRun(was, subdomains), Merged(EDGES, s);
    MergedSound(EDGES, s);
    var all := Values(EDGES, table);
    forall e ensures e in all <==> KeyOf(e) in table.byKey && table.byKey[KeyOf(e)] == e {
      if KeyOf(e) in table.byKey && table.byKey[KeyOf(e)] == e {
        var m :| 0 <= m < |table.keys| && table.keys[m] == KeyOf(e);
        assert all[m] == e;
      }
    }
    assert now.graph.value.edges == ValidOf(NodesOf(now), all) && now.report == DroppedOf(NodesOf(now), all);
  }

  lemma TableHas(s: seq<Edge>, k: Key)
    ensures k in Merged(EDGES, s).byKey <==> exists e :: e in s && KeyOf(e) == k
    ensures k in Merged(EDGES, s).byKey ==> Merged(EDGES, s).byKey[k] in s && KeyOf(Merged(EDGES, s).byKey[k]) == k
    ensures forall e :: e in s && KeyOf(e) == k ==>
              k in Merged(EDGES, s).byKey && !Heavier(e.weight, Merged(EDGES, s).byKey[k].weight)
  {
    hide Merged, Heavier;
    MergedSound(EDGES, s);
    forall e | e in s && KeyOf(e) == k
      ensures HasKey(EDGES, s, k)
      ensures k in Merged(EDGES, s).byKey && !Heavier(e.weight, Merged(EDGES, s).byKey[k].weight)
    {
      var i :| 0 <= i < |s| && s[i] == e;
      NotOutranked(EDGES, s, i);
    }
    if k in Merged(EDGES, s).byKey {
      var j := WinnerKept(EDGES, s, k);
    }
  }

  /** Whatever is carried was once handed in, unchanged. */
  lemma {:induction false} CarriedWasSeen(h: History, e: Edge)
    requires Carries(After(h), e)
    ensures e in FlatEdges(Everything(h))
  {
    hide FlatEdges, Pending, BothEnds, Merged, AfterRun;
    if h != [] {
      var n := |h| - 1;
      FlatConcat(Everything(h[..n]), h[n]);
      if h[n] == [] {
        AfterNothing(After(h[..n]));
        CarriedWasSeen(h[..n], e);
        assert Everything(h) == Everything(h[..n]);
      } else {
        var was := After(h[..n]);
        RunDecides(was, h[n]);
        TableHas(EdgesOf(was) + FlatEdges(h[n]) + Pending(was.report), KeyOf(e));
        if e !in FlatEdges(h[n]) { CarriedWasSeen(h[..n], e); }
      }
    }
  }

  lemma AfterNothing(was: Saved)
    ensures AfterRun(was, []) == was
  {}

  ghost predicate NaNFree(h: History, k: Key) {
    forall e :: e in FlatEdges(Everything(h)) && KeyOf(e) == k ==> e.weight.Num?
  }

  /** A structural key once seen is carried for ever, and by an edge that no seen one outweighs. */
  lemma {:induction false} SeenIsCarried(h: History, e: Edge) returns (c: Edge)
    requires e in FlatEdges(Everything(h)) && Structural(KeyOf(e))
    ensures Carries(After(h), c) && KeyOf(c) == KeyOf(e)
    ensures NaNFree(h, KeyOf(e)) ==> !Heavier(e.weight, c.weight)
  {
    hide FlatEdges, Pending, BothEnds, Merged, AfterRun;
    if h == [] {
      FlatNone();
      assert false;
    }
    var n, k := |h| - 1, KeyOf(e);
    var was := After(h[..n]);
    FlatConcat(Everything(h[..n]), h[n]);
    if h[n] == [] {
      AfterNothing(was);
      assert Everything(h) == Everything(h[..n]);
      c := SeenIsCarried(h[..n], e);
    } else {
      RunDecides(was, h[n]);
      var s := EdgesOf(was) + FlatEdges(h[n]) + Pending(was.report);
      TableHas(s, k);
      if e in FlatEdges(h[n]) {
        assert e in s;
        c := Merged(EDGES, s).byKey[k];
      } else {
        var b := SeenIsCarried(h[..n], e);
        assert b in s;
        c := Merged(EDGES, s).byKey[k];
        CarriedWasSeen(h[..n], b);
        CarriedWasSeen(h, c);
      }
    }
  }

  lemma {:induction false} CarriedOnce(h: History, a: Edge, b: Edge)
    requires Carries(After(h), a) && Carries(After(h), b) && KeyOf(a) == KeyOf(b)
    ensures a == b
  {
    hide FlatEdges, Pending, BothEnds, Merged, AfterRun;
    if h != [] {
      var n := |h| - 1;
      if h[n] == [] {
        AfterNothing(After(h[..n]));
        CarriedOnce(h[..n], a, b);
      } else {
        RunDecides(After(h[..n]), h[n]);
      }
    }
  }

  /** The graph holds what is carried and attached, the report what is carried and not. */
  lemma {:induction false} CarriedSplit(h: History)
    ensures var s := After(h);
            && (forall e :: e in EdgesOf(s) <==> Carries(s, e) && BothEnds(NodesOf(s), e))
            && (forall d :: d in s.report ==> !BothEnds(NodesOf(s), d.edge))
  {
    hide FlatEdges, Pending, BothEnds, Merged, AfterRun;
    if h != [] {
      var n := |h| - 1;
      if h[n] == [] {
        AfterNothing(After(h[..n]));
        CarriedSplit(h[..n]);
        assert After(h) == After(h[..n]);
      } else {
        RunDecides(After(h[..n]), h[n]);
      }
    }
  }

  /** Over any sequence of runs: a structural edge ever handed in is in the graph exactly when both its
      ends have arrived and in the report exactly when not; it is one edge that was handed in; and where no
      weight was NaN it has the greatest weight ever handed in for its key. */
  lemma NoStructuralEdgeLost(h: History, k: Key)
    requires Structural(k)
    ensures InGraph(After(h), k) <==> Seen(h, k) && BothArrived(h, k)
    ensures InReport(After(h), k) <==> Seen(h, k) && !BothArrived(h, k)
    ensures forall c :: Carries(After(h), c) && KeyOf(c) == k ==>
              && c in FlatEdges(Everything(h))
              && (NaNFree(h, k) ==> forall e :: e in FlatEdges(Everything(h)) && KeyOf(e) == k ==>
                  e.weight.value <= c.weight.value)
  {
    hide FlatEdges, Everything, After, NodesOf, EdgesOf;
    var s := After(h);
    CarriedSplit(h);
    NodesArrived(h, k.source);
    NodesArrived(h, k.target);
    forall c | Carries(s, c) && KeyOf(c) == k
      ensures c in FlatEdges(Everything(h)) && (BothEnds(NodesOf(s), c) <==> BothArrived(h, k))
      ensures NaNFree(h, k) ==> forall e :: e in FlatEdges(Everything(h)) && KeyOf(e) == k ==>
              e.weight.value <= c.weight.value
    {
      CarriedWasSeen(h, c);
      forall e | NaNFree(h, k) && e in FlatEdges(Everything(h)) && KeyOf(e) == k
        ensures e.weight.value <= c.weight.value
      {
        var b := SeenIsCarried(h, e);
        CarriedOnce(h, b, c);
      }
    }
    if Seen(h, k) {
      var e :| e in FlatEdges(Everything(h)) && KeyOf(e) == k;
      var c := SeenIsCarried(h, e);
    }
  }

  lemma AllAtOnce(h: History)
    ensures Everything([Everything(h)]) == Everything(h)
  {
    assert [Everything(h)][..0] == [];
  }

  /** For structural edges the sequence of runs and one run over everything agree: on what is attached, on
      what is reported, and, where no weight was NaN, on the weight. */
  lemma RunsAgreeWithOneRun(h: History, k: Key)
    requires Structural(k)
    ensures var once := After([Everything(h)]);
            && NodesOf(After(h)) == NodesOf(once)
            && (InGraph(After(h), k) <==> InGraph(once, k))
            && (InReport(After(h), k) <==> InReport(once, k))
            && (NaNFree(h, k) ==>
                  forall a, b :: Carries(After(h), a) && Carries(once, b) && KeyOf(a) == k && KeyOf(b) == k ==>
                    a.weight == b.weight)
  {
    hide FlatEdges, Everything, After, NodesOf, EdgesOf, Carries, PutAll;
    AllAtOnce(h);
    NodesAtOnce(h);
    NodesAtOnce([Everything(h)]);
    NoStructuralEdgeLost(h, k);
    NoStructuralEdgeLost([Everything(h)], k);
  }

  /** Some run brought an edge of this key when both of its ends had arrived. */
  predicate MetItsEnds(h: History, k: Key) {
    h != [] && (MetItsEnds(h[..|h| - 1], k)
                || (BothArrived(h, k) && exists e :: e in FlatEdges(h[|h| - 1]) && KeyOf(e) == k))
  }

  lemma ArrivedStays(h: History, id: string)
    requires h != [] && Arrived(h[..|h| - 1], id)
    ensures Arrived(h, id)
  {
    FlatConcat(Everything(h[..|h| - 1]), h[|h| - 1]);
  }

  /** Other edges are not retried: one is in the graph exactly when some run brought it while its ends were there. */
  lemma {:induction false} RoutineEdgesAreNotRetried(h: History, k: Key)
    requires !Structural(k)
    ensures InGraph(After(h), k) <==> MetItsEnds(h, k)
  {
    hide FlatEdges, Pending, Merged, AfterRun, Arrived;
    if h != [] {
      var n := |h| - 1;
      var was, now := After(h[..n]), After(h);
      RoutineEdgesAreNotRetried(h[..n], k);
      if h[n] == [] {
        AfterNothing(was);
        FlatNone();
      } else {
        RunDecides(was, h[n]);
        TableHas(EdgesOf(was) + FlatEdges(h[n]) + Pending(was.report), k);
        NodesArrived(h, k.source);
        NodesArrived(h, k.target);
        if InGraph(was, k) {
          CarriedSplit(h[..n]);
          NodesArrived(h[..n], k.source);
          NodesArrived(h[..n], k.target);
          ArrivedStays(h, k.source);
          ArrivedStays(h, k.target);
        }
      }
    }
  }

  // ---- where the sequence and the single run differ ----------------------------------------------

  function Alone(e: Edge): seq<GraphFile> { [GraphFile([], [e])] }

  lemma MergedOne(e: Edge)
    ensures Merged(EDGES, [e]) == Table([KeyOf(e)], map[KeyOf(e) := e])
  {
    assert [e][..0] == [];
    assert Merged(EDGES, [e]) == Put(EDGES, Table([], map[]), e);
  }

  /** Two edges of one key: the second stays only when it is heavier. */
  lemma MergedTwo(a: Edge, b: Edge)
    requires KeyOf(a) == KeyOf(b)
    ensures Merged(EDGES, [a, b]) == Table([KeyOf(a)], map[KeyOf(a) := if Heavier(b.weight, a.weight) then b else a])
  {
    hide Heavier;
    assert [a, b][..1] == [a];
    MergedOne(a);
    assert Merged(EDGES, [a, b]) == Put(EDGES, Merged(EDGES, [a]), b);
  }

  /** While an edge waits in the report it is read last, so a newcomer of equal weight replaces it. */
  lemma WaitingEdgeYields(was: Saved, waiting: Edge, e: Edge)
    requires was.graph.Some? && was.graph.value == GraphFile([], []) && was.report == [Dropped(waiting, true, true)]
    requires Structural(KeyOf(e)) && KeyOf(waiting) == KeyOf(e)
    ensures AfterRun(was, Alone(e)) ==
            Saved(Some(GraphFile([], [])),
                  [Dropped(if Heavier(waiting.weight, e.weight) then waiting else e, true, true)])
  {
    assert was.report[..0] == [] && Pending(was.report) == [waiting];
    FlatOne(GraphFile([], [e]));
    InputsFlat(was, Alone(e));
    var s := [e, waiting];
    assert FlatEdges(Inputs(was, Alone(e))) == s && FlatNodes(Inputs(was, Alone(e))) == [];
    MergedTwo(e, waiting);
    SettleOne(Merged(EDGES, s), if Heavier(waiting.weight, e.weight) then waiting else e);
  }

  lemma FirstRun(e: Edge)
    ensures AfterRun(Saved(None, []), Alone(e)) == Saved(Some(GraphFile([], [])), [Dropped(e, true, true)])
  {
    FlatOne(GraphFile([], [e]));
    InputsFlat(Saved(None, []), Alone(e));
    assert FlatEdges(Inputs(Saved(None, []), Alone(e))) == [e] && FlatNodes(Inputs(Saved(None, []), Alone(e))) == [];
    MergedOne(e);
    SettleOne(Merged(EDGES, [e]), e);
  }

  /** A table of one edge, without any node: the edge is dropped for both of its ends. */
  lemma SettleOne(t: Table<Key, Edge>, e: Edge)
    requires t == Table([KeyOf(e)], map[KeyOf(e) := e])
    ensures Sound(EDGES, t) && Values(EDGES, t) == [e]
    ensures ValidOf([], [e]) == [] && DroppedOf([], [e]) == [Dropped(e, true, true)]
  {
    assert [e][..0] == [];
  }

  /** Equal weights: the runs keep the later edge, a single run the earlier one. */
  lemma TieKeepsTheLater(a: Edge, b: Edge)
    requires a != b && KeyOf(a) == KeyOf(b) && Structural(KeyOf(a)) && a.weight == b.weight
    ensures After([Alone(a), Alone(b)]).report == [Dropped(b, true, true)]
    ensures AfterRun(Saved(None, []), Alone(a) + Alone(b)).report == [Dropped(a, true, true)]
  {
    hide AfterRun, Pending, Merged, FlatEdges, FlatNodes;
    var h := [Alone(a), Alone(b)];
    assert h[..1] == [Alone(a)] && [Alone(a)][..0] == [];
    assert After([]) == Saved(None, []);
    FirstRun(a);
    WaitingEdgeYields(After([Alone(a)]), a, b);
    TieAtOnce(a, b);
  }

  lemma TieAtOnce(a: Edge, b: Edge)
    requires KeyOf(a) == KeyOf(b) && a.weight == b.weight
    ensures AfterRun(Saved(None, []), Alone(a) + Alone(b)).report == [Dropped(a, true, true)]
  {
    hide Merged, FlatEdges, FlatNodes;
    var none, both := Saved(None, []), Alone(a) + Alone(b);
    FlatOne(GraphFile([], [a]));
    FlatOne(GraphFile([], [b]));
    FlatConcat(Alone(a), Alone(b));
    InputsFlat(none, both);
    assert FlatEdges(Inputs(none, both)) == [a, b] && FlatNodes(Inputs(none, both)) == [];
    MergedTwo(a, b);
    SettleOne(Merged(EDGES, [a, b]), a);
  }

  /** With a NaN among the weights the greatest one can be lost: 7, then NaN, then 3 leaves 3. */
  lemma NaNLosesTheGreatest(e: Edge)
    requires Structural(KeyOf(e))
    ensures var heavy, nan, light := e.(weight := Num(7.0)), e.(weight := NaN), e.(weight := Num(3.0));
            After([Alone(heavy), Alone(nan), Alone(light)]).report == [Dropped(light, true, true)]
  {
    var heavy, nan, light := e.(weight := Num(7.0)), e.(weight := NaN), e.(weight := Num(3.0));
    var h := [Alone(heavy), Alone(nan), Alone(light)];
    assert h[..2] == [Alone(heavy), Alone(nan)] && h[..2][..1] == [Alone(heavy)] && h[..2][..1][..0] == [];
    assert After([]) == Saved(None, []);
    FirstRun(heavy);
    WaitingEdgeYields(After(h[..2][..1]), heavy, nan);
    WaitingEdgeYields(After(h[..2]), nan, light);
  }
}
