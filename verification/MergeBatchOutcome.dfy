// What merging batches leaves, told from the batches: which nodes in which order, and which edges.
module MergeBatchOutcome {
  import opened Wrappers
  import opened NodeLists
  import opened NodeIds
  import opened TestedBy
  import opened LinkTests
  import opened LinkTheorems
  import opened LinkReadings
  import opened EdgeTable
  import opened MergeBatchGraphs
  import opened MergeBatchTheorems

  // ---- reading the batches ------------------------------------------------------------------------

  lemma ReadMore(s: seq<Batch>, b: Batch)
    ensures AllNodes(s + [b]) == AllNodes(s) + b.nodes
    ensures AllEdges(s + [b]) == AllEdges(s) + b.edges
  {
    assert (s + [b])[..|s|] == s;
  }

  lemma NothingRead()
    ensures AllNodes([]) == [] && AllEdges([]) == []
  {}

  /** The batches are read one after the other, each as it stands. */
  lemma {:induction false} ReadInOrder(a: seq<Batch>, b: seq<Batch>)
    ensures AllNodes(a + b) == AllNodes(a) + AllNodes(b)
    ensures AllEdges(a + b) == AllEdges(a) + AllEdges(b)
  {
    hide AllNodes, AllEdges;
    if b == [] {
      NothingRead();
      assert a + b == a;
    } else {
      var c, last := b[..|b| - 1], b[|b| - 1];
      ReadInOrder(a, c);
      ReadMore(a + c, last);
      ReadMore(c, last);
      assert b == c + [last] && a + b == a + c + [last];
    }
  }

  lemma OneBatch(b: Batch)
    ensures AllNodes([b]) == b.nodes && AllEdges([b]) == b.edges
  {
    assert [b][..0] == [];
  }

  // ---- nodes ------------------------------------------------------------------------------------------

  /** The node that a batch node with an id becomes. */
  function Entry(b: BatchNode): Option<Node> {
    if b.id == "" then None else Some(Node(NormalizeNodeId(b.id, b.shape), b.shape.filePath, b.tags))
  }

  lemma {:induction false} NodesAre(all: seq<BatchNode>) returns (first: seq<nat>, last: seq<nat>)
    ensures Collected(all, Entry, IdOf, NodesById(RenamedNodes(all)), first, last)
  {
    first, last := [], [];
    if all == [] {
      NothingCollected(Entry, IdOf);
    } else {
      hide NormalizeNodeId, Collected, NodesById, RenamedNodes, PutNode;
      var t, b := all[..|all| - 1], all[|all| - 1];
      assert all == t + [b];
      first, last := NodesAre(t);
      NodesMore(t, b);
      first, last := CollectMore(t, Entry, IdOf, NodesById(RenamedNodes(t)), first, last, b);
    }
  }

  lemma NodesMore(t: seq<BatchNode>, b: BatchNode)
    ensures var nodes := NodesById(RenamedNodes(t));
            NodesById(RenamedNodes(t + [b])) == if b.id == "" then nodes else PutNode(nodes, IdOf, Renamed(b))
  {
    hide Renamed, PutNode;
    assert (t + [b])[..|t|] == t;
    var s := RenamedNodes(t);
    assert (s + [Renamed(b)])[..|s|] == s;
    assert RenamedNodes(t + [b]) == if b.id == "" then s else s + [Renamed(b)];
  }

  // ---- ends ---------------------------------------------------------------------------------------------

  /** The last node of the batches with this id. */
  predicate LastNamed(all: seq<BatchNode>, id: string, k: nat) {
    k < |all| && all[k].id == id && forall i :: k < i < |all| ==> all[i].id != id
  }

  lemma {:induction false} LastWithIsLast(all: seq<BatchNode>, id: string, k: nat)
    requires Known(all, id) && LastNamed(all, id, k)
    ensures LastWith(all, id) == all[k]
  {
    var t := all[..|all| - 1];
    if k < |t| {
      assert t[k] == all[k];
      LastWithIsLast(t, id, k);
    }
  }

  /** What becomes of the ends of an edge: an end that names nodes of the batches gets the new id of the last of them,
      any other end stays, and nothing else about the edge changes. */
  lemma EdgesRewritten(batches: seq<Batch>)
    ensures var all, edges := AllNodes(batches), AllEdges(batches);
            var mapping := IdMapping(all);
            && (forall i :: 0 <= i < |edges| ==>
                  RewriteAll(mapping, edges)[i] ==
                  edges[i].(source := Redirected(mapping, edges[i].source),
                            target := Redirected(mapping, edges[i].target)))
            && (forall id, k: nat :: id != "" && LastNamed(all, id, k) ==>
                  Redirected(mapping, id) == NormalizeNodeId(id, all[k].shape))
            && (forall id :: !Known(all, id) ==> Redirected(mapping, id) == id)
  {
    hide NormalizeNodeId, AllNodes, AllEdges, Known;
    var all := AllNodes(batches);
    forall id, k: nat | id != "" && LastNamed(all, id, k)
      ensures Redirected(IdMapping(all), id) == NormalizeNodeId(id, all[k].shape)
    {
      EndRewritten(all, id, k);
    }
    forall id ensures !Known(all, id) ==> Redirected(IdMapping(all), id) == id {
      if id in IdMapping(all) { MappedIsKnown(all, id); }
    }
  }

  lemma EndRewritten(all: seq<BatchNode>, id: string, k: nat)
    requires id != "" && LastNamed(all, id, k)
    ensures Redirected(IdMapping(all), id) == NormalizeNodeId(id, all[k].shape)
  {
    hide NormalizeNodeId;
    RedirectsToLast(all, id);
    LastWithIsLast(all, id, k);
  }

  lemma {:induction false} NoIdIsMapped(all: seq<BatchNode>)
    ensures "" !in IdMapping(all)
  {
    hide NewId;
    if all != [] { NoIdIsMapped(all[..|all| - 1]); }
  }

  lemma MappedIsKnown(all: seq<BatchNode>, id: string)
    requires id in IdMapping(all)
    ensures Known(all, id)
  {
    hide NormalizeNodeId;
    NoIdIsMapped(all);
    MappedWasRenamed(all, id);
    var n :| n in all && n.id == id;
    var i :| 0 <= i < |all| && all[i] == n;
  }

  // ---- edges --------------------------------------------------------------------------------------------

  /** What becomes of a direction, whatever its case. */
  lemma DirectionsBecome(lower: Lower, direction: string)
    ensures var text := lower(direction);
            NormalizeDirection(lower, direction) ==
            if text in {"bidirectional", "both", "mutual"} then "bidirectional"
            else if text == "backward" then "backward" else "forward"
  {}

  predicate BothNodes(nodes: seq<Node>, e: Edge) {
    HasNode(nodes, IdOf, e.source) && HasNode(nodes, IdOf, e.target)
  }

  /** Two edges that deduplication takes for one: the same ends and type, and directions that become the same. */
  predicate SameKey(lower: Lower, a: Edge, b: Edge) {
    && a.source == b.source && a.target == b.target && a.etype == b.etype
    && NormalizeDirection(lower, a.direction) == NormalizeDirection(lower, b.direction)
  }

  /** No edge before the one at `f` has its key. */
  predicate FirstOfKey(lower: Lower, s: seq<Edge>, f: nat) {
    f < |s| && forall i :: 0 <= i < f ==> !SameKey(lower, s[i], s[f])
  }

  /** Of the edges with the key of the one at `f`, the first, the one at `j` is the earliest of the greatest weight; a
      NaN is kept exactly when it comes first. */
  predicate BestOfKey(lower: Lower, s: seq<Edge>, f: nat, j: nat)
    requires f < |s|
  {
    && j < |s| && SameKey(lower, s[j], s[f])
    && (s[f].weight.NaN? ==> j == f)
    && (s[f].weight.Num? ==>
          && s[j].weight.Num?
          && (forall i :: 0 <= i < |s| && SameKey(lower, s[i], s[f]) && s[i].weight.Num? ==>
                s[i].weight.value <= s[j].weight.value && (i < j ==> s[i].weight.value < s[j].weight.value)))
  }

  /** `a` holds the edges of `s` whose ends are nodes, in order, with their directions; `at` says where they were. */
  ghost predicate Picks(lower: Lower, nodes: seq<Node>, s: seq<Edge>, a: seq<Edge>, at: seq<nat>) {
    && |at| == |a| && Increasing(at)
    && (forall q :: 0 <= q < |a| ==> Picked(lower, nodes, s, a[q], at[q]))
    && (forall i: nat :: i < |s| && BothNodes(nodes, s[i]) ==> i in at)
  }

  predicate Picked(lower: Lower, nodes: seq<Node>, s: seq<Edge>, e: Edge, i: nat) {
    i < |s| && BothNodes(nodes, s[i]) && e == Directed(lower, s[i])
  }

  lemma PicksMore(lower: Lower, nodes: seq<Node>, t: seq<Edge>, a: seq<Edge>, at: seq<nat>, e: Edge)
    requires Picks(lower, nodes, t, a, at)
    ensures !BothNodes(nodes, e) ==> Picks(lower, nodes, t + [e], a, at)
    ensures BothNodes(nodes, e) ==> Picks(lower, nodes, t + [e], a + [Directed(lower, e)], at + [|t|])
  {
    hide BothNodes, Directed, Increasing;
    var s := t + [e];
    forall i: nat | i < |t| ensures s[i] == t[i] {}
    forall q | 0 <= q < |a| ensures Picked(lower, nodes, s, a[q], at[q]) && at[q] < |t| {
      assert Picked(lower, nodes, t, a[q], at[q]);
    }
    IncreasingMore(at, |t|);
    assert s[|t|] == e;
    if BothNodes(nodes, e) { OneMorePick(nodes, t, at, e); }
  }

  lemma OneMorePick(nodes: seq<Node>, t: seq<Edge>, at: seq<nat>, e: Edge)
    requires forall i: nat :: i < |t| && BothNodes(nodes, t[i]) ==> i in at
    ensures forall i: nat :: i < |t| + 1 && BothNodes(nodes, (t + [e])[i]) ==> i in at + [|t|]
  {
    hide BothNodes;
    forall i: nat | i < |t| + 1 && BothNodes(nodes, (t + [e])[i]) ensures i in at + [|t|] {
      if i < |t| { assert (t + [e])[i] == t[i]; } else { assert (at + [|t|])[|at|] == |t|; }
    }
  }

  lemma NothingPicked(lower: Lower, nodes: seq<Node>)
    ensures Picks(lower, nodes, [], Attached(lower, nodes, []), [])
  {
    NothingIncreases();
  }

  /** Attaching keeps the edges whose ends are nodes, in order. */
  lemma {:induction false} AttachedAt(lower: Lower, nodes: seq<Node>, s: seq<Edge>) returns (at: seq<nat>)
    ensures Picks(lower, nodes, s, Attached(lower, nodes, s), at)
  {
    hide BothNodes, Directed, Attached, Picks;
    at := [];
    if s == [] {
      NothingPicked(lower, nodes);
    } else {
      var t, e := s[..|s| - 1], s[|s| - 1];
      assert s == t + [e];
      at := AttachedAt(lower, nodes, t);
      AttachedMore(lower, nodes, t, e);
      PicksMore(lower, nodes, t, Attached(lower, nodes, t), at, e);
      if BothNodes(nodes, e) { at := at + [|t|]; }
    }
  }

  lemma AttachedMore(lower: Lower, nodes: seq<Node>, t: seq<Edge>, e: Edge)
    ensures var a := Attached(lower, nodes, t);
            Attached(lower, nodes, t + [e]) == if BothNodes(nodes, e) then a + [Directed(lower, e)] else a
  {
    hide HasNode, Directed;
    assert (t + [e])[..|t|] == t;
  }

  lemma KeysAgree(lower: Lower, a: Edge, b: Edge)
    ensures SameKey(lower, a, b) <==> KeyOf(Directed(lower, a)) == KeyOf(Directed(lower, b))
  {
    hide NormalizeDirection;
  }

  /** Where an edge was that has the key of a picked one. */
  lemma WasPicked(lower: Lower, nodes: seq<Node>, s: seq<Edge>, a: seq<Edge>, at: seq<nat>, f: nat, i: nat)
    returns (x: nat)
    requires Picks(lower, nodes, s, a, at) && f < |a| && at[f] < |s| && i < |s| && SameKey(lower, s[i], s[at[f]])
    ensures x < |a| && at[x] == i && KeyOf(a[x]) == KeyOf(a[f])
    ensures a[x].weight == s[i].weight
    ensures (x < f <==> i < at[f]) && forall y :: 0 <= y < |a| ==> (x < y <==> i < at[y])
  {
    hide NormalizeDirection, HasNode;
    assert Picked(lower, nodes, s, a[f], at[f]);
    assert BothNodes(nodes, s[i]);
    x :| 0 <= x < |at| && at[x] == i;
    assert Picked(lower, nodes, s, a[x], at[x]);
    KeysAgree(lower, s[i], s[at[f]]);
  }

  lemma FirstPicked(lower: Lower, nodes: seq<Node>, s: seq<Edge>, a: seq<Edge>, at: seq<nat>, f: nat)
    requires Picks(lower, nodes, s, a, at) && f < |a| && FirstWith(EDGES, a, KeyOf(a[f]), f)
    ensures FirstOfKey(lower, s, at[f])
  {
    hide SameKey, NormalizeDirection, HasNode;
    assert Picked(lower, nodes, s, a[f], at[f]);
    forall i | 0 <= i < at[f] ensures !SameKey(lower, s[i], s[at[f]]) {
      if SameKey(lower, s[i], s[at[f]]) { var x := WasPicked(lower, nodes, s, a, at, f, i); }
    }
  }

  lemma BestPicked(lower: Lower, nodes: seq<Node>, s: seq<Edge>, a: seq<Edge>, at: seq<nat>, f: nat, j: nat)
    requires Picks(lower, nodes, s, a, at) && f < |a| && FirstWith(EDGES, a, KeyOf(a[f]), f)
    requires Wins(EDGES, a, KeyOf(a[f]), j)
    ensures j < |a| && at[f] < |s| && BestOfKey(lower, s, at[f], at[j])
  {
    hide SameKey, NormalizeDirection, HasNode, Increasing;
    assert Picked(lower, nodes, s, a[f], at[f]) && Picked(lower, nodes, s, a[j], at[j]);
    KeysAgree(lower, s[at[j]], s[at[f]]);
    OnlyFirst(a, f, j);
    forall i | 0 <= i < |s| && SameKey(lower, s[i], s[at[f]]) && s[i].weight.Num? && s[at[f]].weight.Num?
      ensures s[i].weight.value <= s[at[j]].weight.value && (i < at[j] ==> s[i].weight.value < s[at[j]].weight.value)
    {
      var x := WasPicked(lower, nodes, s, a, at, f, i);
    }
  }

  /** A winner that is NaN came first, and no other wins over a first NaN. */
  lemma OnlyFirst(a: seq<Edge>, f: nat, j: nat)
    requires f < |a| && FirstWith(EDGES, a, KeyOf(a[f]), f) && Wins(EDGES, a, KeyOf(a[f]), j)
    ensures a[f].weight.NaN? ==> j == f
    ensures a[f].weight.Num? ==> a[j].weight.Num?
  {
    assert forall i: nat :: FirstWith(EDGES, a, KeyOf(a[f]), i) ==> i == f;
  }

  /** The edges that step 6 reads: the rewritten ones, as the linker leaves them. */
  function LinkedEdges(conv: Conventions, batches: seq<Batch>): seq<Edge> {
    var all := AllNodes(batches);
    Link(conv, NodesById(RenamedNodes(all)), RewriteAll(IdMapping(all), AllEdges(batches))).edges
  }

  /** Where an edge of the output comes from: the first edge of its key is at `f`, the best at `j`. */
  predicate ComesFrom(lower: Lower, nodes: seq<Node>, s: seq<Edge>, out: Edge, f: nat, j: nat) {
    && FirstOfKey(lower, s, f) && BestOfKey(lower, s, f, j) && BothNodes(nodes, s[j])
    && out == s[j].(direction := NormalizeDirection(lower, s[j].direction))
  }

  /** The output has one edge for every key of an edge between nodes, in the order in which the keys first appear, and
      it is the best edge of its key, with its direction made canonical. */
  lemma OutputEdges(conv: Conventions, lower: Lower, batches: seq<Batch>) returns (first: seq<nat>, best: seq<nat>)
    ensures var g, s := MergedGraph(conv, lower, batches), LinkedEdges(conv, batches);
            && |first| == |best| == |g.edges| && Increasing(first)
            && (forall q :: 0 <= q < |g.edges| ==> ComesFrom(lower, g.nodes, s, g.edges[q], first[q], best[q]))
            && (forall i :: 0 <= i < |s| && BothNodes(g.nodes, s[i]) ==>
                  exists q :: 0 <= q < |first| && first[q] < |s| && SameKey(lower, s[first[q]], s[i]))
  {
    hide Link, NodesById, RenamedNodes, IdMapping, AllNodes, AllEdges, Attached, HasNode, NormalizeDirection;
    var g, s := MergedGraph(conv, lower, batches), LinkedEdges(conv, batches);
    first, best := StepSix(lower, g.nodes, s);
  }

  lemma OneOutput(lower: Lower, nodes: seq<Node>, s: seq<Edge>, a: seq<Edge>, at: seq<nat>, f: nat, j: nat)
    requires Picks(lower, nodes, s, a, at) && f < |a|
    requires FirstWith(EDGES, a, KeyOf(a[f]), f) && Wins(EDGES, a, KeyOf(a[f]), j)
    ensures j < |a| && |at| == |a| && at[f] < |s| && ComesFrom(lower, nodes, s, a[j], at[f], at[j])
  {
    hide HasNode, NormalizeDirection, SameKey, FirstWith, Wins, Picked, Picks, FirstOfKey, BestOfKey;
    FirstPicked(lower, nodes, s, a, at, f);
    BestPicked(lower, nodes, s, a, at, f, j);
    PickedIs(lower, nodes, s, a, at, f);
    PickedIs(lower, nodes, s, a, at, j);
  }

  lemma OneKept(lower: Lower, nodes: seq<Node>, s: seq<Edge>, a: seq<Edge>, at: seq<nat>, fa: seq<nat>, i: nat)
    returns (q: nat)
    requires Picks(lower, nodes, s, a, at) && i < |s| && BothNodes(nodes, s[i])
    requires forall x :: 0 <= x < |a| ==> Listed(EDGES, a, fa, EDGES.key(a[x]))
    ensures q < |fa| && fa[q] < |a| && |at| == |a| && at[fa[q]] < |s| && SameKey(lower, s[at[fa[q]]], s[i])
  {
    hide HasNode, NormalizeDirection, SameKey, Picked, BothNodes;
    var x :| 0 <= x < |at| && at[x] == i;
    PickedIs(lower, nodes, s, a, at, x);
    assert Listed(EDGES, a, fa, EDGES.key(a[x]));
    q :| 0 <= q < |fa| && fa[q] < |a| && EDGES.key(a[fa[q]]) == EDGES.key(a[x]);
    PickedIs(lower, nodes, s, a, at, fa[q]);
    KeysAgree(lower, s[at[fa[q]]], s[i]);
  }

  lemma StepSix(lower: Lower, nodes: seq<Node>, s: seq<Edge>) returns (first: seq<nat>, best: seq<nat>)
    ensures Sound(EDGES, EdgeTable.Merged(EDGES, Attached(lower, nodes, s)))
    ensures var out := Values(EDGES, EdgeTable.Merged(EDGES, Attached(lower, nodes, s)));
            && |first| == |best| == |out| && Increasing(first)
            && (forall q :: 0 <= q < |out| ==> ComesFrom(lower, nodes, s, out[q], first[q], best[q]))
            && (forall i :: 0 <= i < |s| && BothNodes(nodes, s[i]) ==>
                  exists q :: 0 <= q < |first| && first[q] < |s| && SameKey(lower, s[first[q]], s[i]))
  {
    hide Attached, BothNodes, ComesFrom, SameKey, EdgeTable.Merged, FirstWith, Wins, Picks, Listed;
    var a := Attached(lower, nodes, s);
    var at := AttachedAt(lower, nodes, s);
    var fa, ba := ValuesAre(EDGES, a);
    var out := Values(EDGES, EdgeTable.Merged(EDGES, a));
    forall q | 0 <= q < |out|
      ensures |at| == |a| && ba[q] < |a| && ComesFrom(lower, nodes, s, out[q], at[fa[q]], at[ba[q]])
    {
      assert EDGES.key(a[fa[q]]) == KeyOf(a[fa[q]]);
      OneOutput(lower, nodes, s, a, at, fa[q], ba[q]);
    }
    assert |at| == |a| && Increasing(at) by { PicksInOrder(lower, nodes, s, a, at); }
    first, best := Along(at, fa), Along(at, ba);
    AlongInOrder(at, fa);
    forall i | 0 <= i < |s| && BothNodes(nodes, s[i])
      ensures exists q :: 0 <= q < |first| && first[q] < |s| && SameKey(lower, s[first[q]], s[i])
    {
      var q := OneKept(lower, nodes, s, a, at, fa, i);
      assert first[q] == at[fa[q]];
    }
  }

  lemma PicksInOrder(lower: Lower, nodes: seq<Node>, s: seq<Edge>, a: seq<Edge>, at: seq<nat>)
    requires Picks(lower, nodes, s, a, at)
    ensures |at| == |a| && Increasing(at)
  {
    hide Increasing, Picked, BothNodes;
  }

  lemma PickedIs(lower: Lower, nodes: seq<Node>, s: seq<Edge>, a: seq<Edge>, at: seq<nat>, x: nat)
    requires Picks(lower, nodes, s, a, at) && x < |a|
    ensures |at| == |a| && at[x] < |s| && BothNodes(nodes, s[at[x]])
    ensures a[x] == s[at[x]].(direction := NormalizeDirection(lower, s[at[x]].direction))
  {
    hide HasNode, NormalizeDirection;
    assert Picked(lower, nodes, s, a[x], at[x]);
  }

  // ---- nodes of the output -----------------------------------------------------------------------------------

  predicate Tests(e: Edge, id: string) { e.etype == "tested_by" && e.source == id }

  lemma SameTests(lower: Lower, nodes: seq<Node>, s: seq<Edge>, out: Edge, f: nat, j: nat, id: string)
    requires ComesFrom(lower, nodes, s, out, f, j)
    ensures f < |s| && j < |s|
    ensures Tests(out, id) <==> Tests(s[j], id)
    ensures Tests(out, id) <==> Tests(s[f], id)
  {
    hide HasNode, NormalizeDirection;
  }

  lemma StillTested(conv: Conventions, lower: Lower, batches: seq<Batch>, id: string, i: nat)
    requires i < |LinkedEdges(conv, batches)| && Tests(LinkedEdges(conv, batches)[i], id)
    ensures exists e :: e in MergedGraph(conv, lower, batches).edges && Tests(e, id)
  {
    hide MergedGraph, LinkedEdges, BothNodes, ComesFrom, NormalizeDirection, Increasing;
    var g, s := MergedGraph(conv, lower, batches), LinkedEdges(conv, batches);
    var first, best := OutputEdges(conv, lower, batches);
    TestedIsAttached(conv, lower, batches, i);
    var q :| 0 <= q < |first| && first[q] < |s| && SameKey(lower, s[first[q]], s[i]);
    SameTests(lower, g.nodes, s, g.edges[q], first[q], best[q], id);
    assert g.edges[q] in g.edges;
  }

  lemma TestedStays(conv: Conventions, lower: Lower, batches: seq<Batch>, id: string)
    ensures (exists e :: e in MergedGraph(conv, lower, batches).edges && Tests(e, id)) <==>
            (exists e :: e in LinkedEdges(conv, batches) && Tests(e, id))
  {
    hide MergedGraph, LinkedEdges, BothNodes, ComesFrom, SameKey, Tests, Increasing;
    var g, s := MergedGraph(conv, lower, batches), LinkedEdges(conv, batches);
    if e :| e in g.edges && Tests(e, id) {
      var first, best := OutputEdges(conv, lower, batches);
      var q :| 0 <= q < |g.edges| && g.edges[q] == e;
      SameTests(lower, g.nodes, s, e, first[q], best[q], id);
      assert s[best[q]] in s;
    }
    if e :| e in s && Tests(e, id) {
      var i :| 0 <= i < |s| && s[i] == e;
      StillTested(conv, lower, batches, id, i);
    }
  }

  lemma TestedIsAttached(conv: Conventions, lower: Lower, batches: seq<Batch>, i: nat)
    requires i < |LinkedEdges(conv, batches)| && LinkedEdges(conv, batches)[i].etype == "tested_by"
    ensures BothNodes(MergedGraph(conv, lower, batches).nodes, LinkedEdges(conv, batches)[i])
  {
    hide Link, NodesById, RenamedNodes, IdMapping, AllNodes, AllEdges, ClassesOf, Attached, HasNode, EdgeTable.Merged;
    hide Values;
    var all := AllNodes(batches);
    var nodes, s := NodesById(RenamedNodes(all)), RewriteAll(IdMapping(all), AllEdges(batches));
    ResultIsClean(conv, nodes, s);
    var e := LinkedEdges(conv, batches)[i];
    ClassifiedIsNode(conv, nodes, e.source);
    ClassifiedIsNode(conv, nodes, e.target);
    LinkKeepsIds(conv, nodes, s, e.source);
    LinkKeepsIds(conv, nodes, s, e.target);
  }

  /** The output's nodes: for every new id the last batch node that gets it, in the order in which the ids first appear;
      `tested` is added to its tags exactly when it lacks the tag and a `tested_by` edge of the output starts there. */
  lemma OutputNodes(conv: Conventions, lower: Lower, batches: seq<Batch>)
    returns (untagged: seq<Node>, first: seq<nat>, last: seq<nat>)
    ensures Collected(AllNodes(batches), Entry, IdOf, untagged, first, last)
    ensures var g := MergedGraph(conv, lower, batches);
            && |g.nodes| == |untagged|
            && forall q :: 0 <= q < |untagged| ==>
                 var had := if untagged[q].tags.TagList? then untagged[q].tags.items else [];
                 g.nodes[q] ==
                 if "tested" !in had && exists e :: e in g.edges && Tests(e, untagged[q].id)
                 then untagged[q].(tags := TagList(had + ["tested"])) else untagged[q]
  {
    hide Link, NodesById, RenamedNodes, IdMapping, AllNodes, AllEdges, Collected, Attached, EdgeTable.Merged, Values;
    var all, g := AllNodes(batches), MergedGraph(conv, lower, batches);
    first, last := NodesAre(all);
    untagged := NodesById(RenamedNodes(all));
    TagsExactly(conv, untagged, RewriteAll(IdMapping(all), AllEdges(batches)));
    forall q | 0 <= q < |untagged|
      ensures (exists e :: e in g.edges && Tests(e, untagged[q].id)) <==>
              (exists e :: e in LinkedEdges(conv, batches) && e.etype == "tested_by" && e.source == untagged[q].id)
    {
      TestedStays(conv, lower, batches, untagged[q].id);
    }
  }
}
