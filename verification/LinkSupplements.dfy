// Pass 2 of the linker, told from the graph it is given: which test files get an edge by path convention, and which.
module LinkSupplements {
  import opened Wrappers
  import opened TestedBy
  import opened LinkTests
  import opened LinkTheorems

  // ---- the graph it is given --------------------------------------------------------------------

  /** Some node is the file `path`. */
  predicate IsFile(nodes: seq<Node>, path: string) {
    exists i :: 0 <= i < |nodes| && PathOf(nodes[i]) == Some(path)
  }

  /** The last node that is the file `path`. */
  predicate LastAt(nodes: seq<Node>, path: string, m: nat) {
    m < |nodes| && PathOf(nodes[m]) == Some(path) && forall i :: m < i < |nodes| ==> PathOf(nodes[i]) != Some(path)
  }

  predicate IsTest(conv: Conventions, n: Node) { PathOf(n).Some? && conv.isTest(PathOf(n).value) }

  predicate IsProduction(conv: Conventions, n: Node) { PathOf(n).Some? && !conv.isTest(PathOf(n).value) }

  /** A `tested_by` edge between a test and a production file, either way round. */
  predicate Connects(conv: Conventions, nodes: seq<Node>, e: Edge, test: Node) {
    && e.etype == TESTED_BY
    && exists i :: 0 <= i < |nodes| && IsProduction(conv, nodes[i])
                   && ((e.source == nodes[i].id && e.target == test.id)
                       || (e.source == test.id && e.target == nodes[i].id))
  }

  /** The first candidate for a test file that is a file of the graph and no test. */
  predicate FirstCandidate(conv: Conventions, nodes: seq<Node>, test: Node, k: nat)
    requires PathOf(test).Some?
  {
    var candidates := conv.candidates(PathOf(test).value);
    && k < |candidates| && IsFile(nodes, candidates[k]) && !conv.isTest(candidates[k])
    && forall j :: 0 <= j < k ==> !(IsFile(nodes, candidates[j]) && !conv.isTest(candidates[j]))
  }

  /** A test file that no edge connects to a production file, and that has a candidate. */
  predicate Unlinked(conv: Conventions, nodes: seq<Node>, edges: seq<Edge>, test: Node) {
    && IsTest(conv, test)
    && (forall i :: 0 <= i < |edges| ==> !Connects(conv, nodes, edges[i], test))
    && exists k: nat :: k < |conv.candidates(PathOf(test).value)| && FirstCandidate(conv, nodes, test, k)
  }

  /** The indices, in order, of the unlinked tests among the first `n` nodes. */
  function UnlinkedUpTo(conv: Conventions, nodes: seq<Node>, edges: seq<Edge>, n: nat): (r: seq<nat>)
    requires n <= |nodes|
    ensures forall q :: 0 <= q < |r| ==> r[q] < n
  {
    if n == 0 then []
    else
      var r := UnlinkedUpTo(conv, nodes, edges, n - 1);
      if Unlinked(conv, nodes, edges, nodes[n - 1]) then r + [n - 1] else r
  }

  /** The edge that path convention gives a test: from the last node that is its first candidate. */
  predicate ByConvention(conv: Conventions, nodes: seq<Node>, test: Node, e: Edge)
    requires PathOf(test).Some?
  {
    && e.target == test.id && e.etype == "tested_by" && e.direction == "forward" && e.weight == Num(0.5)
    && e.description == "Path-based pairing (deterministic)"
    && exists k: nat, m: nat ::
         && k < |conv.candidates(PathOf(test).value)| && m < |nodes| && FirstCandidate(conv, nodes, test, k)
         && LastAt(nodes, conv.candidates(PathOf(test).value)[k], m) && e.source == nodes[m].id
  }

  // ---- the index means that -----------------------------------------------------------------------

  lemma IsFileMore(nodes: seq<Node>, n: Node, path: string)
    ensures IsFile(nodes + [n], path) <==> IsFile(nodes, path) || PathOf(n) == Some(path)
  {
    hide PathOf;
    var all := nodes + [n];
    assert all[|nodes|] == n && forall i :: 0 <= i < |nodes| ==> all[i] == nodes[i];
  }

  lemma LastAtMore(nodes: seq<Node>, n: Node, path: string, m: nat)
    ensures PathOf(n) == Some(path) ==> LastAt(nodes + [n], path, |nodes|)
    ensures PathOf(n) != Some(path) && LastAt(nodes, path, m) ==> LastAt(nodes + [n], path, m)
  {
    hide PathOf;
  }

  lemma NodeAtMore(nodes: seq<Node>, n: Node, path: string)
    ensures path in NodeAt(nodes + [n]) <==> path in NodeAt(nodes) || PathOf(n) == Some(path)
    ensures path in NodeAt(nodes + [n]) ==>
              NodeAt(nodes + [n])[path] == if PathOf(n) == Some(path) then n.id else NodeAt(nodes)[path]
  {
    hide PathOf;
    assert (nodes + [n])[..|nodes|] == nodes;
  }

  /** The node that answers for a path is the last that has it. */
  lemma {:induction false} NodeAtMeans(nodes: seq<Node>, path: string) returns (m: nat)
    ensures path in NodeAt(nodes) <==> IsFile(nodes, path)
    ensures IsFile(nodes, path) ==> LastAt(nodes, path, m) && NodeAt(nodes)[path] == nodes[m].id
  {
    m := 0;
    if nodes != [] {
      hide PathOf, NodeAt, IsFile, LastAt;
      var t, n := nodes[..|nodes| - 1], nodes[|nodes| - 1];
      assert nodes == t + [n];
      m := NodeAtMeans(t, path);
      IsFileMore(t, n, path);
      NodeAtMore(t, n, path);
      LastAtMore(t, n, path, m);
      if PathOf(n) == Some(path) { m := |t|; } else if IsFile(t, path) { LastAtBound(t, path, m); }
    }
  }

  lemma LastAtBound(nodes: seq<Node>, path: string, m: nat)
    requires LastAt(nodes, path, m)
    ensures m < |nodes|
  {}

  lemma {:induction false} FirstUsableMeans(conv: Conventions, byPath: map<string, string>, candidates: seq<string>)
    ensures var found := FirstUsable(conv, byPath, candidates);
            && (found.None? ==>
                  forall k :: 0 <= k < |candidates| ==> !(candidates[k] in byPath && !conv.isTest(candidates[k])))
            && (found.Some? ==>
                  exists k :: 0 <= k < |candidates| && candidates[k] == found.value
                    && candidates[k] in byPath && !conv.isTest(candidates[k])
                    && forall j :: 0 <= j < k ==> !(candidates[j] in byPath && !conv.isTest(candidates[j])))
  {
    if candidates != [] {
      FirstUsableMeans(conv, byPath, candidates[1..]);
      assert forall k :: 0 < k < |candidates| ==> candidates[k] == candidates[1..][k - 1];
      if !(candidates[0] in byPath && !conv.isTest(candidates[0])) && FirstUsable(conv, byPath, candidates[1..]).Some? {
        var rest := candidates[1..];
        var k :| 0 <= k < |rest| && rest[k] == FirstUsable(conv, byPath, rest).value
                 && rest[k] in byPath && !conv.isTest(rest[k])
                 && forall j :: 0 <= j < k ==> !(rest[j] in byPath && !conv.isTest(rest[j]));
        assert candidates[k + 1] == rest[k];
        forall j | 0 <= j < k + 1 ensures !(candidates[j] in byPath && !conv.isTest(candidates[j])) {
          if j > 0 { assert candidates[j] == rest[j - 1]; }
        }
      }
    }
  }

  /** An edge pairs a test exactly when it connects it. */
  lemma PairedMeansConnected(conv: Conventions, nodes: seq<Node>, e: Edge, test: Node)
    requires UniqueIds(nodes) && test in nodes && IsTest(conv, test)
    ensures (exists p :: Pairs(ClassesOf(conv, nodes), e, p) && p.test == test.id) <==> Connects(conv, nodes, e, test)
  {
    hide PathOf, ClassesOf;
    var cls := ClassesOf(conv, nodes);
    ClassifiedByPath(conv, nodes, test);
    forall i | 0 <= i < |nodes| && PathOf(nodes[i]).Some?
      ensures nodes[i].id in cls && cls[nodes[i].id] == Classify(conv, PathOf(nodes[i]).value)
    {
      ClassifiedByPath(conv, nodes, nodes[i]);
    }
    if p :| Pairs(cls, e, p) && p.test == test.id {
      var n :| n in nodes && n.id == p.production && PathOf(n).Some?;
    }
    if Connects(conv, nodes, e, test) {
      var i :| 0 <= i < |nodes| && IsProduction(conv, nodes[i])
               && ((e.source == nodes[i].id && e.target == test.id)
                   || (e.source == test.id && e.target == nodes[i].id));
      assert Pairs(cls, e, Pair(nodes[i].id, test.id));
    }
  }

  // ---- one test -----------------------------------------------------------------------------------

  lemma CoveredMeans(conv: Conventions, nodes: seq<Node>, edges: seq<Edge>, test: Node)
    requires UniqueIds(nodes) && test in nodes && IsTest(conv, test)
    ensures (exists p :: p in PairSet(ClassesOf(conv, nodes), edges) && p.test == test.id) <==>
            exists i :: 0 <= i < |edges| && Connects(conv, nodes, edges[i], test)
  {
    hide ClassesOf, PathOf, Connects, Pairs, IsTest;
    var cls := ClassesOf(conv, nodes);
    if p :| p in PairSet(cls, edges) && p.test == test.id {
      var i :| 0 <= i < |edges| && Pairs(cls, edges[i], p);
      PairedMeansConnected(conv, nodes, edges[i], test);
    }
    if i :| 0 <= i < |edges| && Connects(conv, nodes, edges[i], test) {
      PairedMeansConnected(conv, nodes, edges[i], test);
      var p :| Pairs(cls, edges[i], p) && p.test == test.id;
      assert Occurs(cls, edges, p);
    }
  }

  /** The candidate that the search finds is the first one. */
  lemma FoundIsFirst(conv: Conventions, nodes: seq<Node>, test: Node) returns (k: nat)
    requires PathOf(test).Some?
    ensures var candidates := conv.candidates(PathOf(test).value);
            var found := FirstUsable(conv, NodeAt(nodes), candidates);
            && (found.Some? <==> exists j: nat :: j < |candidates| && FirstCandidate(conv, nodes, test, j))
            && (found.Some? ==>
                  k < |candidates| && FirstCandidate(conv, nodes, test, k) && candidates[k] == found.value)
  {
    hide PathOf, NodeAt, IsFile;
    var candidates := conv.candidates(PathOf(test).value);
    forall i | 0 <= i < |candidates| ensures candidates[i] in NodeAt(nodes) <==> IsFile(nodes, candidates[i]) {
      var m := NodeAtMeans(nodes, candidates[i]);
    }
    FirstUsableMeans(conv, NodeAt(nodes), candidates);
    var found := FirstUsable(conv, NodeAt(nodes), candidates);
    k := 0;
    if found.Some? {
      k :| 0 <= k < |candidates| && candidates[k] == found.value
           && candidates[k] in NodeAt(nodes) && !conv.isTest(candidates[k])
           && forall j :: 0 <= j < k ==> !(candidates[j] in NodeAt(nodes) && !conv.isTest(candidates[j]));
      assert FirstCandidate(conv, nodes, test, k);
    } else {
      forall j: nat | j < |candidates| ensures !FirstCandidate(conv, nodes, test, j) {
        assert !(candidates[j] in NodeAt(nodes) && !conv.isTest(candidates[j]));
      }
    }
  }

  /** What pass 2 does for one test: its edge by convention when it is unlinked, and otherwise nothing. */
  lemma OneTest(conv: Conventions, nodes: seq<Node>, edges: seq<Edge>, test: Node)
    requires UniqueIds(nodes) && test in nodes && IsTest(conv, test)
    ensures var one := SupplementFor(conv, NodeAt(nodes), PairSet(ClassesOf(conv, nodes), edges), test);
            if Unlinked(conv, nodes, edges, test) then |one| == 1 && ByConvention(conv, nodes, test, one[0])
            else one == []
  {
    hide PathOf, NodeAt, FirstUsable, FirstCandidate, LastAt, Connects, ClassesOf, PairSet, IsFile, ByConvention;
    CoveredMeans(conv, nodes, edges, test);
    var k := FoundIsFirst(conv, nodes, test);
    var candidates := conv.candidates(PathOf(test).value);
    var found := FirstUsable(conv, NodeAt(nodes), candidates);
    var one := SupplementFor(conv, NodeAt(nodes), PairSet(ClassesOf(conv, nodes), edges), test);
    if exists i :: 0 <= i < |edges| && Connects(conv, nodes, edges[i], test) {
      assert one == [];
      assert !Unlinked(conv, nodes, edges, test);
    } else if found.None? {
      assert one == [];
      assert !Unlinked(conv, nodes, edges, test);
    } else {
      assert Unlinked(conv, nodes, edges, test);
      assert one == [Supplement(NodeAt(nodes)[found.value], test.id)];
    }
    if found.Some? {
      assert found.value == candidates[k];
      FirstIsFile(conv, nodes, test, k);
      var m := NodeAtMeans(nodes, candidates[k]);
      LastAtBound(nodes, candidates[k], m);
      ConventionEdge(conv, nodes, test, k, m);
    }
  }

  lemma ConventionEdge(conv: Conventions, nodes: seq<Node>, test: Node, k: nat, m: nat)
    requires PathOf(test).Some? && k < |conv.candidates(PathOf(test).value)| && m < |nodes|
    requires FirstCandidate(conv, nodes, test, k) && LastAt(nodes, conv.candidates(PathOf(test).value)[k], m)
    ensures ByConvention(conv, nodes, test, Supplement(nodes[m].id, test.id))
  {
    hide PathOf, FirstCandidate, LastAt;
  }

  lemma FirstIsFile(conv: Conventions, nodes: seq<Node>, test: Node, k: nat)
    requires PathOf(test).Some? && FirstCandidate(conv, nodes, test, k)
    ensures k < |conv.candidates(PathOf(test).value)| && IsFile(nodes, conv.candidates(PathOf(test).value)[k])
  {}

  // ---- main result ------------------------------------------------------------------------------------

  /** The supplements of the tests among the first `n` nodes are the edges by convention of the unlinked ones. */
  lemma {:induction false} SupplementsUpTo(conv: Conventions, nodes: seq<Node>, edges: seq<Edge>, n: nat)
    requires UniqueIds(nodes) && n <= |nodes|
    ensures var unlinked := UnlinkedUpTo(conv, nodes, edges, n);
            var covered := PairSet(ClassesOf(conv, nodes), edges);
            var extra := Supplements(conv, NodeAt(nodes), covered, TestsOf(conv, nodes[..n]));
            && |extra| == |unlinked|
            && forall q :: 0 <= q < |extra| ==>
                 PathOf(nodes[unlinked[q]]).Some? && ByConvention(conv, nodes, nodes[unlinked[q]], extra[q])
  {
    hide PathOf, NodeAt, ByConvention, Unlinked, ClassesOf, PairSet, SupplementFor;
    var byPath, covered := NodeAt(nodes), PairSet(ClassesOf(conv, nodes), edges);
    if n == 0 {
      assert nodes[..0] == [];
    } else {
      SupplementsUpTo(conv, nodes, edges, n - 1);
      var t := nodes[n - 1];
      assert nodes[..n][..n - 1] == nodes[..n - 1];
      var before := TestsOf(conv, nodes[..n - 1]);
      if IsTest(conv, t) {
        assert TestsOf(conv, nodes[..n]) == before + [t];
        assert (before + [t])[..|before|] == before;
        OneTest(conv, nodes, edges, t);
      } else {
        NoTestIsLinked(conv, nodes, edges, t);
      }
    }
  }

  lemma NoTestIsLinked(conv: Conventions, nodes: seq<Node>, edges: seq<Edge>, n: Node)
    ensures Unlinked(conv, nodes, edges, n) ==> IsTest(conv, n)
  {}

  /** Pass 2: for the tests that no edge connects to a production file and that have a candidate, in the order of the
      nodes, the result ends with their edges by path convention, and `added` is how many there are. */
  lemma AddedByConvention(conv: Conventions, nodes: seq<Node>, edges: seq<Edge>)
    requires UniqueIds(nodes)
    ensures var r, unlinked := Link(conv, nodes, edges), UnlinkedUpTo(conv, nodes, edges, |nodes|);
            && r.added == |unlinked| <= |r.edges|
            && forall q :: 0 <= q < |unlinked| ==>
                 && PathOf(nodes[unlinked[q]]).Some?
                 && ByConvention(conv, nodes, nodes[unlinked[q]], r.edges[|r.edges| - r.added + q])
  {
    hide PathOf, NodeAt, ByConvention, Unlinked, ClassesOf, PairSet, SupplementFor, Linked, Supplements;
    hide TagSources, NewlyTagged, Sources, PairsOf, SwappedPairs, TestsOf;
    SupplementsUpTo(conv, nodes, edges, |nodes|);
    assert nodes[..|nodes|] == nodes;
    var r, kept, extra := Link(conv, nodes, edges), Linked(ClassesOf(conv, nodes), edges), Added(conv, nodes, edges);
    assert r.edges == kept + extra && r.added == |extra|;
    forall q | 0 <= q < |extra| ensures r.edges[|r.edges| - r.added + q] == extra[q] {}
  }

  lemma {:induction false} UnlinkedAre(conv: Conventions, nodes: seq<Node>, edges: seq<Edge>, n: nat, i: nat)
    requires n <= |nodes| && i < n
    ensures i in UnlinkedUpTo(conv, nodes, edges, n) <==> Unlinked(conv, nodes, edges, nodes[i])
  {
    hide Unlinked;
    if i < n - 1 {
      UnlinkedAre(conv, nodes, edges, n - 1, i);
    } else {
      assert i !in UnlinkedUpTo(conv, nodes, edges, n - 1);
    }
  }

  /** The edges of the result that point to a test. */
  predicate PointsTo(e: Edge, test: Node) { e.etype == TESTED_BY && e.target == test.id }

  /** A test that no edge connects is pointed to by exactly one edge of the result, its own by convention, when it has
      a candidate, and by none when it has not. */
  lemma UnconnectedTest(conv: Conventions, nodes: seq<Node>, edges: seq<Edge>, test: Node)
    requires UniqueIds(nodes) && test in nodes && IsTest(conv, test)
    requires forall i :: 0 <= i < |edges| ==> !Connects(conv, nodes, edges[i], test)
    ensures var out := Link(conv, nodes, edges).edges;
            if Unlinked(conv, nodes, edges, test) then
              exists i :: 0 <= i < |out| && PointsTo(out[i], test) && ByConvention(conv, nodes, test, out[i])
                          && forall j :: 0 <= j < |out| && PointsTo(out[j], test) ==> j == i
            else forall i :: 0 <= i < |out| ==> !PointsTo(out[i], test)
  {
    hide PathOf, NodeAt, ByConvention, Unlinked, ClassesOf, PairSet, SupplementFor, Linked, Supplements, Connects;
    hide TagSources, NewlyTagged, Sources, PairsOf, SwappedPairs, TestsOf, Added;
    var kept, extra := Linked(ClassesOf(conv, nodes), edges), Added(conv, nodes, edges);
    forall i: nat | i < |kept| ensures !PointsTo(kept[i], test) { KeptPointsCovered(conv, nodes, edges, test, i); }
    AddedForTest(conv, nodes, edges, test);
    var out := Link(conv, nodes, edges).edges;
    assert out == kept + extra;
    assert forall i :: 0 <= i < |extra| ==> out[|kept| + i] == extra[i];
    if Unlinked(conv, nodes, edges, test) {
      var i :| 0 <= i < |extra| && PointsTo(extra[i], test) && ByConvention(conv, nodes, test, extra[i])
               && forall j :: 0 <= j < |extra| && PointsTo(extra[j], test) ==> j == i;
      assert out[|kept| + i] == extra[i];
      assert forall j :: 0 <= j < |kept| ==> out[j] == kept[j];
      forall j | 0 <= j < |out| ensures PointsTo(out[j], test) ==> j == |kept| + i {
        if j >= |kept| { assert out[j] == extra[j - |kept|]; }
      }
    }
  }

  lemma KeptPointsCovered(conv: Conventions, nodes: seq<Node>, edges: seq<Edge>, test: Node, i: nat)
    requires UniqueIds(nodes) && test in nodes && IsTest(conv, test)
    ensures var kept := Linked(ClassesOf(conv, nodes), edges);
            i < |kept| && PointsTo(kept[i], test) ==>
              exists j :: 0 <= j < |edges| && Connects(conv, nodes, edges[j], test)
  {
    hide PathOf, ClassesOf, Connects, IsTest, Linked, PairSet;
    var cls := ClassesOf(conv, nodes);
    var kept := Linked(cls, edges);
    if i < |kept| && PointsTo(kept[i], test) {
      PassOneTheorem(cls, edges);
      CoveredMeans(conv, nodes, edges, test);
      assert Occurs(cls, edges, PairOf(kept[i]));
      assert PairOf(kept[i]) in PairSet(cls, edges);
    }
  }

  lemma AddedForTest(conv: Conventions, nodes: seq<Node>, edges: seq<Edge>, test: Node)
    requires UniqueIds(nodes) && test in nodes && IsTest(conv, test)
    ensures var extra := Added(conv, nodes, edges);
            if Unlinked(conv, nodes, edges, test) then
              exists i :: 0 <= i < |extra| && PointsTo(extra[i], test) && ByConvention(conv, nodes, test, extra[i])
                          && forall j :: 0 <= j < |extra| && PointsTo(extra[j], test) ==> j == i
            else forall i :: 0 <= i < |extra| ==> !PointsTo(extra[i], test)
  {
    hide PathOf, NodeAt, Unlinked, ClassesOf, PairSet, SupplementFor, Supplements, TestsOf, ByConvention, PointsTo;
    SupplementsUpTo(conv, nodes, edges, |nodes|);
    assert nodes[..|nodes|] == nodes;
    var unlinked, extra := UnlinkedUpTo(conv, nodes, edges, |nodes|), Added(conv, nodes, edges);
    var t :| 0 <= t < |nodes| && nodes[t] == test;
    UnlinkedAre(conv, nodes, edges, |nodes|, t);
    UnlinkedOnce(conv, nodes, edges, |nodes|);
    forall i | 0 <= i < |extra| ensures PointsTo(extra[i], test) <==> unlinked[i] == t {
      ConventionPoints(conv, nodes, unlinked[i], extra[i], t);
    }
    if Unlinked(conv, nodes, edges, test) {
      var i :| 0 <= i < |unlinked| && unlinked[i] == t;
      assert PointsTo(extra[i], test);
    }
  }

  lemma ConventionPoints(conv: Conventions, nodes: seq<Node>, u: nat, e: Edge, t: nat)
    requires UniqueIds(nodes) && u < |nodes| && t < |nodes| && PathOf(nodes[u]).Some?
    requires ByConvention(conv, nodes, nodes[u], e)
    ensures PointsTo(e, nodes[t]) <==> u == t
  {
    hide PathOf, FirstCandidate, LastAt;
  }

  lemma {:induction false} UnlinkedOnce(conv: Conventions, nodes: seq<Node>, edges: seq<Edge>, n: nat)
    requires n <= |nodes|
    ensures Increasing(UnlinkedUpTo(conv, nodes, edges, n))
  {
    hide Unlinked, Increasing;
    if n == 0 {
      NothingIncreases();
    } else {
      UnlinkedOnce(conv, nodes, edges, n - 1);
      IncreasingMore(UnlinkedUpTo(conv, nodes, edges, n - 1), n - 1);
    }
  }
}
