// One merge run, told from what it reads: the saved graph, the subdomain graphs and the report of the run before.
module SubdomainRuns {
  import opened Wrappers
  import opened NodeLists
  import opened TestedBy
  import opened EdgeTable
  import opened MergeSubdomainGraphs
  import opened SubdomainHistories

  // ---- nodes ------------------------------------------------------------------------------------------

  /** A node without an id is passed over. */
  function Entry(n: GraphNode): Option<GraphNode> {
    if n.id == "" then None else Some(n)
  }

  lemma {:induction false} PutAllAre(all: seq<GraphNode>) returns (first: seq<nat>, last: seq<nat>)
    ensures Collected(all, Entry, IdOf, PutAll([], all), first, last)
  {
    first, last := [], [];
    if all == [] {
      NothingCollected(Entry, IdOf);
    } else {
      var t, n := all[..|all| - 1], all[|all| - 1];
      assert all == t + [n];
      first, last := PutAllAre(t);
      PutAllClean([], t);
      first, last := CollectMore(t, Entry, IdOf, PutAll([], t), first, last, n);
    }
  }

  /** The saved nodes after any runs: for every id the last node that was handed in with it, in the order in which the
      ids first appeared. */
  lemma SavedNodesAreLatest(h: History) returns (first: seq<nat>, last: seq<nat>)
    ensures Collected(FlatNodes(Everything(h)), Entry, IdOf, NodesOf(After(h)), first, last)
  {
    hide PutAll, FlatNodes, Collected;
    NodesAtOnce(h);
    first, last := PutAllAre(FlatNodes(Everything(h)));
  }

  // ---- edges ------------------------------------------------------------------------------------------

  predicate SameEdge(a: Edge, b: Edge) {
    a.source == b.source && a.target == b.target && a.etype == b.etype
  }

  /** No edge before the one at `f` has its ends and its type. */
  predicate Opens(s: seq<Edge>, f: nat) {
    f < |s| && forall i :: 0 <= i < f ==> !SameEdge(s[i], s[f])
  }

  /** Of the edges with the ends and the type of the one at `f`, the first, the one at `j` is the earliest of the
      greatest weight; a NaN is kept exactly when it comes first. */
  predicate Best(s: seq<Edge>, f: nat, j: nat)
    requires f < |s|
  {
    && j < |s| && SameEdge(s[j], s[f])
    && (s[f].weight.NaN? ==> j == f)
    && (s[f].weight.Num? ==>
          && s[j].weight.Num?
          && (forall i :: 0 <= i < |s| && SameEdge(s[i], s[f]) && s[i].weight.Num? ==>
                s[i].weight.value <= s[j].weight.value && (i < j ==> s[i].weight.value < s[j].weight.value)))
  }

  predicate Present(nodes: seq<GraphNode>, id: string) {
    exists n :: n in nodes && n.id == id
  }

  /** The edge comes from the list: the first edge like it is at `f`, the best at `j`. */
  predicate ComesFrom(s: seq<Edge>, e: Edge, f: nat, j: nat) {
    Opens(s, f) && Best(s, f, j) && e == s[j]
  }

  /** One of these positions has an edge with the ends and the type of `e`. */
  predicate HasOneLike(s: seq<Edge>, at: seq<nat>, e: Edge) {
    exists q :: 0 <= q < |at| && at[q] < |s| && SameEdge(s[at[q]], e)
  }

  lemma WinnerComesFrom(s: seq<Edge>, f: nat, j: nat)
    requires f < |s| && FirstWith(EDGES, s, KeyOf(s[f]), f) && Wins(EDGES, s, KeyOf(s[f]), j)
    ensures j < |s| && ComesFrom(s, s[j], f, j)
  {
    assert forall i :: 0 <= i < |s| ==> (SameEdge(s[i], s[f]) <==> EDGES.key(s[i]) == KeyOf(s[f]));
    assert forall i :: 0 <= i < |s| ==> EDGES.weight(s[i]) == s[i].weight;
    assert forall i: nat :: FirstWith(EDGES, s, KeyOf(s[f]), i) ==> i == f;
  }

  /** The values of the table, told from the list. */
  lemma ValuesComeFrom(s: seq<Edge>) returns (first: seq<nat>, best: seq<nat>)
    ensures Sound(EDGES, Merged(EDGES, s))
    ensures var all := Values(EDGES, Merged(EDGES, s));
            && |first| == |best| == |all| && Increasing(first)
            && (forall q :: 0 <= q < |all| ==> ComesFrom(s, all[q], first[q], best[q]))
            && (forall i :: 0 <= i < |s| ==> HasOneLike(s, first, s[i]))
  {
    hide Merged, FirstWith, Wins, ComesFrom;
    first, best := ValuesAre(EDGES, s);
    var all := Values(EDGES, Merged(EDGES, s));
    forall q | 0 <= q < |all| ensures ComesFrom(s, all[q], first[q], best[q]) {
      assert EDGES.key(s[first[q]]) == KeyOf(s[first[q]]);
      WinnerComesFrom(s, first[q], best[q]);
    }
    forall i | 0 <= i < |s| ensures HasOneLike(s, first, s[i]) {
      assert Listed(EDGES, s, first, EDGES.key(s[i]));
      var q :| 0 <= q < |first| && first[q] < |s| && EDGES.key(s[first[q]]) == EDGES.key(s[i]);
      assert SameEdge(s[first[q]], s[i]);
    }
  }

  // ---- the graph and the report ----------------------------------------------------------------------

  lemma PresentMeans(nodes: seq<GraphNode>, id: string)
    ensures HasNode(nodes, IdOf, id) <==> Present(nodes, id)
  {
    if n :| n in nodes && n.id == id {
      var i :| 0 <= i < |nodes| && nodes[i] == n;
      assert IdOf(nodes[i]) == id;
    }
  }

  predicate Joined(nodes: seq<GraphNode>, e: Edge) {
    Present(nodes, e.source) && Present(nodes, e.target)
  }

  /** An entry of the report: the edge and which of its ends are missing, at least one of them. */
  predicate Reports(nodes: seq<GraphNode>, d: Dropped, e: Edge) {
    && d.edge == e && (d.source || d.target)
    && (d.source <==> !Present(nodes, e.source)) && (d.target <==> !Present(nodes, e.target))
  }

  /** Every edge goes to the graph or to the report, in order; `at` and `off` say where they were. */
  ghost predicate Parted(nodes: seq<GraphNode>, s: seq<Edge>, valid: seq<Edge>, dropped: seq<Dropped>,
                         at: seq<nat>, off: seq<nat>)
  {
    && |at| == |valid| && Increasing(at) && |off| == |dropped| && Increasing(off)
    && (forall q :: 0 <= q < |at| ==> at[q] < |s| && Joined(nodes, s[at[q]]) && valid[q] == s[at[q]])
    && (forall q :: 0 <= q < |off| ==> off[q] < |s| && Reports(nodes, dropped[q], s[off[q]]))
    && (forall i: nat :: i < |s| ==> i in at || i in off)
  }

  lemma PartMore(nodes: seq<GraphNode>, t: seq<Edge>, e: Edge, valid: seq<Edge>, dropped: seq<Dropped>,
                 at: seq<nat>, off: seq<nat>)
    requires Parted(nodes, t, valid, dropped, at, off)
    ensures Joined(nodes, e) ==> Parted(nodes, t + [e], valid + [e], dropped, at + [|t|], off)
    ensures forall d :: Reports(nodes, d, e) ==> Parted(nodes, t + [e], valid, dropped + [d], at, off + [|t|])
  {
    hide Joined, Reports, Increasing;
    IncreasingMore(at, |t|);
    IncreasingMore(off, |t|);
    var s := t + [e];
    assert forall i :: 0 <= i < |t| ==> s[i] == t[i];
    assert s[|t|] == e;
  }

  lemma {:induction false} PartedAt(nodes: seq<GraphNode>, s: seq<Edge>) returns (at: seq<nat>, off: seq<nat>)
    ensures Parted(nodes, s, ValidOf(nodes, s), DroppedOf(nodes, s), at, off)
  {
    at, off := [], [];
    if s != [] {
      hide Parted, ValidOf, DroppedOf, HasNode, Present;
      var n := |s| - 1;
      var t, e := s[..n], s[n];
      assert s == t + [e] && s[..n + 1] == s;
      at, off := PartedAt(nodes, t);
      PartMore(nodes, t, e, ValidOf(nodes, t), DroppedOf(nodes, t), at, off);
      SplitMore(nodes, s, n);
      PresentMeans(nodes, e.source);
      PresentMeans(nodes, e.target);
      if Joined(nodes, e) { at := at + [n]; } else { off := off + [n]; }
    }
  }

  // ---- one run --------------------------------------------------------------------------------------------

  /** `edges` holds, in the order in which their like first appears in `s`, the best edges of these kinds. */
  predicate BestEdges(s: seq<Edge>, edges: seq<Edge>, first: seq<nat>, best: seq<nat>) {
    && |first| == |best| == |edges| && Increasing(first)
    && forall q :: 0 <= q < |edges| ==> ComesFrom(s, edges[q], first[q], best[q])
  }

  function EdgesIn(report: seq<Dropped>): (r: seq<Edge>)
    ensures |r| == |report| && forall q :: 0 <= q < |r| ==> r[q] == report[q].edge
  {
    seq(|report|, q requires 0 <= q < |report| => report[q].edge)
  }

  /** One run: the saved nodes and those of the subdomain graphs are collected; of the saved edges, the subdomain
      graphs' and the pending ones, in this order, the best of each kind goes to the graph when both of its ends are
      there and otherwise to the report, which names the missing ends. */
  lemma RunExactly(was: Saved, subdomains: seq<GraphFile>)
    returns (fn: seq<nat>, ln: seq<nat>, gf: seq<nat>, gb: seq<nat>, rf: seq<nat>, rb: seq<nat>)
    requires subdomains != []
    ensures var now := AfterRun(was, subdomains);
            var s := EdgesOf(was) + FlatEdges(subdomains) + Pending(was.report);
            && now.graph.Some?
            && Collected(NodesOf(was) + FlatNodes(subdomains), Entry, IdOf, NodesOf(now), fn, ln)
            && BestEdges(s, EdgesOf(now), gf, gb) && BestEdges(s, EdgesIn(now.report), rf, rb)
            && (forall q :: 0 <= q < |EdgesOf(now)| ==> Joined(NodesOf(now), EdgesOf(now)[q]))
            && (forall q :: 0 <= q < |now.report| ==> Reports(NodesOf(now), now.report[q], now.report[q].edge))
            && (forall i :: 0 <= i < |s| ==> HasOneLike(s, gf, s[i]) || HasOneLike(s, rf, s[i]))
  {
    hide PutAll, FlatNodes, FlatEdges, Pending, Collected, ComesFrom, Joined, Reports, Merged, SameEdge;
    var now := AfterRun(was, subdomains);
    var s := EdgesOf(was) + FlatEdges(subdomains) + Pending(was.report);
    InputsFlat(was, subdomains);
    fn, ln := PutAllAre(NodesOf(was) + FlatNodes(subdomains));
    var first, best := ValuesComeFrom(s);
    var all := Values(EDGES, Merged(EDGES, s));
    var at, off := PartedAt(NodesOf(now), all);
    gf, gb := Along(first, at), Along(best, at);
    rf, rb := Along(first, off), Along(best, off);
    AlongInOrder(first, at);
    AlongInOrder(first, off);
    forall i | 0 <= i < |s| ensures HasOneLike(s, gf, s[i]) || HasOneLike(s, rf, s[i]) {
      LikeParted(s, first, at, off, i);
    }
    forall q | 0 <= q < |now.report|
      ensures now.report[q].edge == all[off[q]] && Reports(NodesOf(now), now.report[q], now.report[q].edge)
    {
      ReportsIts(NodesOf(now), now.report[q], all[off[q]]);
    }
  }

  lemma ReportsIts(nodes: seq<GraphNode>, d: Dropped, e: Edge)
    ensures Reports(nodes, d, e) ==> d.edge == e
  {}

  lemma LikeParted(s: seq<Edge>, first: seq<nat>, at: seq<nat>, off: seq<nat>, i: nat)
    requires i < |s| && HasOneLike(s, first, s[i])
    requires forall q :: 0 <= q < |at| ==> at[q] < |first|
    requires forall q :: 0 <= q < |off| ==> off[q] < |first|
    requires forall q: nat :: q < |first| ==> q in at || q in off
    ensures HasOneLike(s, Along(first, at), s[i]) || HasOneLike(s, Along(first, off), s[i])
  {
    var q: nat :| q < |first| && first[q] < |s| && SameEdge(s[first[q]], s[i]);
    if q in at {
      var x :| 0 <= x < |at| && at[x] == q;
      assert Along(first, at)[x] == first[q];
    } else {
      var x :| 0 <= x < |off| && off[x] == q;
      assert Along(first, off)[x] == first[q];
    }
  }

  /** `r` holds the edges of the three structural types, in the order of the report; `at` says where they were. */
  ghost predicate Structurals(report: seq<Dropped>, r: seq<Edge>, at: seq<nat>) {
    && |at| == |r| && Increasing(at)
    && (forall q :: 0 <= q < |r| ==> at[q] < |report| && r[q] == report[at[q]].edge)
    && (forall i: nat :: i < |report| ==>
          (i in at <==> report[i].edge.etype in {"contains_flow", "flow_step", "cross_domain"}))
  }

  lemma StructuralsMore(report: seq<Dropped>, r: seq<Edge>, at: seq<nat>, d: Dropped)
    requires Structurals(report, r, at)
    ensures if d.edge.etype in {"contains_flow", "flow_step", "cross_domain"}
            then Structurals(report + [d], r + [d.edge], at + [|report|]) else Structurals(report + [d], r, at)
  {
    hide Increasing;
    IncreasingMore(at, |report|);
    var more := report + [d];
    assert forall i :: 0 <= i < |report| ==> more[i] == report[i];
    assert more[|report|] == d;
    assert forall i: nat :: i in at ==> i < |report|;
  }

  lemma PendingMore(report: seq<Dropped>, d: Dropped)
    ensures var r := Pending(report);
            Pending(report + [d]) ==
            if d.edge.etype in {"contains_flow", "flow_step", "cross_domain"} then r + [d.edge] else r
  {
    assert (report + [d])[..|report|] == report;
  }

  /** The pending edges that a run reads from the report of the run before. */
  lemma {:induction false} PendingIsStructural(report: seq<Dropped>) returns (at: seq<nat>)
    ensures Structurals(report, Pending(report), at)
  {
    at := [];
    if report != [] {
      hide Structurals, Pending;
      var t, d := report[..|report| - 1], report[|report| - 1];
      assert report == t + [d];
      at := PendingIsStructural(t);
      StructuralsMore(t, Pending(t), at, d);
      PendingMore(t, d);
      if d.edge.etype in {"contains_flow", "flow_step", "cross_domain"} { at := at + [|t|]; }
    }
  }

  predicate HasLike(edges: seq<Edge>, e: Edge) {
    exists m :: m in edges && SameEdge(m, e)
  }

  /** What a run reports as recovered: the pending edges that have their like in the graph afterwards. */
  lemma {:induction false} RecoveredCounts(pending: seq<Edge>, merged: seq<Edge>)
    ensures |Attached(pending, merged)| == |set i: nat | i < |pending| && HasLike(merged, pending[i])|
  {
    if pending != [] {
      hide HasLike, Attached;
      var t, e := pending[..|pending| - 1], pending[|pending| - 1];
      assert pending == t + [e];
      RecoveredCounts(t, merged);
      AttachedMore(t, merged, e);
      var before := set i: nat | i < |t| && HasLike(merged, t[i]);
      var now := set i: nat | i < |pending| && HasLike(merged, pending[i]);
      assert now == if HasLike(merged, e) then before + {|t|} else before;
    }
  }

  lemma AttachedMore(t: seq<Edge>, merged: seq<Edge>, e: Edge)
    ensures |Attached(t + [e], merged)| == |Attached(t, merged)| + if HasLike(merged, e) then 1 else 0
  {
    assert (t + [e])[..|t|] == t;
    assert forall m :: KeyOf(m) == KeyOf(e) <==> SameEdge(m, e);
  }
}
