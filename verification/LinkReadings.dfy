// Pass 1 of the linker, told from the graph it is given: what becomes of every edge, which edge stands for a pair, and
// where it stands.
module LinkReadings {
  import opened Wrappers
  import opened TestedBy
  import opened LinkTests
  import opened LinkTheorems
  import opened LinkSupplements

  // ---- the graph it is given --------------------------------------------------------------------

  /** The nodes with these ids are a production file and a test file. */
  predicate Between(conv: Conventions, nodes: seq<Node>, production: string, test: string) {
    && (exists i :: 0 <= i < |nodes| && nodes[i].id == production && IsProduction(conv, nodes[i]))
    && (exists i :: 0 <= i < |nodes| && nodes[i].id == test && IsTest(conv, nodes[i]))
  }

  /** A `tested_by` edge between the two files of `p`, either way round. */
  predicate Joins(conv: Conventions, nodes: seq<Node>, e: Edge, p: Pair) {
    && e.etype == "tested_by" && Between(conv, nodes, p.production, p.test)
    && ((e.source == p.production && e.target == p.test) || (e.source == p.test && e.target == p.production))
  }

  /** The two files an edge lies between, the production file first. */
  function Ends(conv: Conventions, nodes: seq<Node>, e: Edge): Pair {
    if Between(conv, nodes, e.source, e.target) then Pair(e.source, e.target) else Pair(e.target, e.source)
  }

  /** Among the edges that join `p`, the one at `j` is the earliest of the greatest weight; a NaN only counts when it
      comes first, and then nothing else does. */
  predicate Best(conv: Conventions, nodes: seq<Node>, s: seq<Edge>, p: Pair, j: nat) {
    && j < |s| && Joins(conv, nodes, s[j], p)
    && (forall k :: 0 <= k < j && Joins(conv, nodes, s[k], p) ==>
          s[j].weight.Num? && (s[k].weight.Num? ==> s[k].weight.value < s[j].weight.value))
    && (s[j].weight.Num? ==>
          forall k :: 0 <= k < |s| && Joins(conv, nodes, s[k], p) && s[k].weight.Num? ==>
            s[k].weight.value <= s[j].weight.value)
    && (s[j].weight.Num? ==>
          forall k :: 0 <= k < |s| && Joins(conv, nodes, s[k], p) && s[k].weight.NaN? ==>
            exists m :: 0 <= m < k && Joins(conv, nodes, s[m], p))
  }

  /** Nothing before `i` joins `p`. */
  predicate NoneBefore(conv: Conventions, nodes: seq<Node>, s: seq<Edge>, p: Pair, i: nat)
    requires i < |s|
  {
    forall k :: 0 <= k < i ==> !Joins(conv, nodes, s[k], p)
  }

  /** The edge at `i` keeps its place: it is no `tested_by` edge, or it is the first between its two files. */
  predicate KeepsPlace(conv: Conventions, nodes: seq<Node>, s: seq<Edge>, i: nat)
    requires i < |s|
  {
    var p := Ends(conv, nodes, s[i]);
    s[i].etype != "tested_by" || (Joins(conv, nodes, s[i], p) && NoneBefore(conv, nodes, s, p, i))
  }

  /** The places kept among the first `n`, in order. */
  function Places(conv: Conventions, nodes: seq<Node>, s: seq<Edge>, n: nat): (r: seq<nat>)
    requires n <= |s|
    ensures |r| <= n && forall q :: 0 <= q < |r| ==> r[q] < n
  {
    if n == 0 then []
    else
      var r := Places(conv, nodes, s, n - 1);
      if KeepsPlace(conv, nodes, s, n - 1) then r + [n - 1] else r
  }

  /** What stands in a kept place: the edge itself, or the best edge between its two files, turned round when it
      arrived upside down. */
  ghost predicate Stands(conv: Conventions, nodes: seq<Node>, s: seq<Edge>, i: nat, out: Edge)
    requires i < |s|
  {
    if s[i].etype != "tested_by" then out == s[i]
    else
      var p := Ends(conv, nodes, s[i]);
      exists j: nat :: Best(conv, nodes, s, p, j) &&
        if s[j].source == p.production then out == s[j]
        else out == Edge(p.production, p.test, "tested_by", "forward", s[j].weight,
                         if s[j].description == "" then "Direction corrected (was test → production)"
                         else s[j].description + " [direction corrected]")
  }

  /** The best edge between the two files of the edge at `i` arrived upside down. */
  ghost predicate Turned(conv: Conventions, nodes: seq<Node>, s: seq<Edge>, i: nat)
    requires i < |s|
  {
    var p := Ends(conv, nodes, s[i]);
    s[i].etype == "tested_by" && exists j: nat :: Best(conv, nodes, s, p, j) && s[j].source != p.production
  }

  // ---- the linker reads it so ----------------------------------------------------------------------

  lemma ClassOf(conv: Conventions, nodes: seq<Node>, id: string)
    requires UniqueIds(nodes)
    ensures var cls := ClassesOf(conv, nodes);
            && ((id in cls && cls[id] == Production) <==>
                exists i :: 0 <= i < |nodes| && nodes[i].id == id && IsProduction(conv, nodes[i]))
            && ((id in cls && cls[id] == Test) <==>
                exists i :: 0 <= i < |nodes| && nodes[i].id == id && IsTest(conv, nodes[i]))
  {
    hide ClassesOf, PathOf;
    var cls := ClassesOf(conv, nodes);
    forall i | 0 <= i < |nodes| && nodes[i].id == id && PathOf(nodes[i]).Some?
      ensures id in cls && cls[id] == Classify(conv, PathOf(nodes[i]).value)
    {
      ClassifiedByPath(conv, nodes, nodes[i]);
    }
    if id in cls {
      var n :| n in nodes && n.id == id && PathOf(n).Some?;
      var i :| 0 <= i < |nodes| && nodes[i] == n;
      assert nodes[i].id == id && (IsProduction(conv, nodes[i]) || IsTest(conv, nodes[i]));
    }
  }

  lemma NotBoth(conv: Conventions, nodes: seq<Node>, a: string, b: string)
    requires UniqueIds(nodes)
    ensures Between(conv, nodes, a, b) ==> a != b && !Between(conv, nodes, b, a)
  {
    hide PathOf;
  }

  /** How pass 1 reads an edge. */
  lemma ReadsByPaths(conv: Conventions, nodes: seq<Node>, e: Edge)
    requires UniqueIds(nodes)
    ensures Read(ClassesOf(conv, nodes), e) ==
            if e.etype != "tested_by" then Other
            else if Between(conv, nodes, e.source, e.target) then Pairing(Pair(e.source, e.target), false)
            else if Between(conv, nodes, e.target, e.source) then Pairing(Pair(e.target, e.source), true)
            else Broken
  {
    hide ClassesOf, IsProduction, IsTest, UniqueIds;
    ClassOf(conv, nodes, e.source);
    ClassOf(conv, nodes, e.target);
  }

  lemma PairsByPaths(conv: Conventions, nodes: seq<Node>, e: Edge, p: Pair)
    requires UniqueIds(nodes)
    ensures Pairs(ClassesOf(conv, nodes), e, p) <==> Joins(conv, nodes, e, p)
    ensures Joins(conv, nodes, e, p) ==> p == Ends(conv, nodes, e)
    ensures Joins(conv, nodes, e, p) ==> (Inverted(ClassesOf(conv, nodes), e) <==> e.source != p.production)
  {
    hide ClassesOf, Between, Read, UniqueIds;
    ReadsByPaths(conv, nodes, e);
    NotBoth(conv, nodes, e.source, e.target);
    NotBoth(conv, nodes, e.target, e.source);
  }

  lemma SurvivesMeansBest(conv: Conventions, nodes: seq<Node>, s: seq<Edge>, p: Pair, j: nat)
    requires UniqueIds(nodes)
    ensures Survives(ClassesOf(conv, nodes), s, p, j) <==> Best(conv, nodes, s, p, j)
  {
    hide ClassesOf, Pairs, Joins, UniqueIds;
    var cls := ClassesOf(conv, nodes);
    forall k | 0 <= k < |s| ensures Pairs(cls, s[k], p) <==> Joins(conv, nodes, s[k], p) {
      PairsByPaths(conv, nodes, s[k], p);
    }
    if j < |s| && Joins(conv, nodes, s[j], p) {
      assert Pairs(cls, s[j], p);
      assert Occurs(cls, s, p);
      var f := First(cls, s, p);
      FirstUnique(cls, s, p);
      assert forall k: nat :: FirstOf(cls, s, p, k) <==> k == f;
      assert forall k :: 0 <= k < |s| && Joins(conv, nodes, s[k], p) ==>
               (k == f <==> forall m :: 0 <= m < k ==> !Joins(conv, nodes, s[m], p));
    }
  }

  /** What pass 1 writes for one edge. */
  lemma EmitsInPlace(conv: Conventions, nodes: seq<Node>, s: seq<Edge>, i: nat)
    requires UniqueIds(nodes) && i < |s|
    ensures var out := Emit(ClassesOf(conv, nodes), s, i);
            if KeepsPlace(conv, nodes, s, i) then |out| == 1 && Stands(conv, nodes, s, i, out[0]) else out == []
  {
    hide ClassesOf, Joins, UniqueIds, Best, Survives, Survivor, Between, Canonical;
    var cls, p := ClassesOf(conv, nodes), Ends(conv, nodes, s[i]);
    ReadsByPaths(conv, nodes, s[i]);
    PairsByPaths(conv, nodes, s[i], p);
    if Pairs(cls, s[i], p) {
      assert Occurs(cls, s, p);
      FirstInPlace(conv, nodes, s, p, i);
      WrittenForPair(conv, nodes, s, p);
    } else {
      NotJoined(conv, nodes, s[i]);
    }
  }

  lemma NotJoined(conv: Conventions, nodes: seq<Node>, e: Edge)
    requires UniqueIds(nodes)
    ensures !Joins(conv, nodes, e, Ends(conv, nodes, e)) ==> !Read(ClassesOf(conv, nodes), e).Pairing?
  {
    hide Between, ClassesOf, UniqueIds;
    ReadsByPaths(conv, nodes, e);
  }

  lemma FirstInPlace(conv: Conventions, nodes: seq<Node>, s: seq<Edge>, p: Pair, i: nat)
    requires UniqueIds(nodes) && i < |s| && Occurs(ClassesOf(conv, nodes), s, p) && Joins(conv, nodes, s[i], p)
    ensures First(ClassesOf(conv, nodes), s, p) == i <==> NoneBefore(conv, nodes, s, p, i)
  {
    hide ClassesOf, Joins, UniqueIds, Pairs;
    var cls := ClassesOf(conv, nodes);
    forall k | 0 <= k < |s| ensures Pairs(cls, s[k], p) <==> Joins(conv, nodes, s[k], p) {
      PairsByPaths(conv, nodes, s[k], p);
    }
    FirstUnique(cls, s, p);
  }

  /** The survivor of a pair is the best edge between its files, and it is written upright. */
  lemma WrittenForPair(conv: Conventions, nodes: seq<Node>, s: seq<Edge>, p: Pair)
    requires UniqueIds(nodes) && Occurs(ClassesOf(conv, nodes), s, p)
    ensures var cls := ClassesOf(conv, nodes);
            var j := Survivor(cls, s, p);
            && Best(conv, nodes, s, p, j)
            && Canonical(cls, s[j]) ==
               if s[j].source == p.production then s[j]
               else Edge(p.production, p.test, "tested_by", "forward", s[j].weight,
                         if s[j].description == "" then "Direction corrected (was test → production)"
                         else s[j].description + " [direction corrected]")
  {
    hide ClassesOf, UniqueIds, Best, Survives, Survivor, Between, Pairs, Inverted;
    var cls := ClassesOf(conv, nodes);
    var j := Survivor(cls, s, p);
    SurvivorSurvives(cls, s, p);
    SurvivesMeansBest(conv, nodes, s, p, j);
    PairsByPaths(conv, nodes, s[j], p);
  }

  /** Pass 1 on a prefix: the kept places, each filled as it should be. */
  lemma {:induction false} PlacesUpTo(conv: Conventions, nodes: seq<Node>, s: seq<Edge>, n: nat)
    requires UniqueIds(nodes) && n <= |s|
    ensures var out, places := LinkedUpTo(ClassesOf(conv, nodes), s, n), Places(conv, nodes, s, n);
            |out| == |places| && forall q :: 0 <= q < |out| ==> Stands(conv, nodes, s, places[q], out[q])
  {
    hide ClassesOf, UniqueIds, Emit, KeepsPlace, Stands;
    if n > 0 {
      PlacesUpTo(conv, nodes, s, n - 1);
      EmitsInPlace(conv, nodes, s, n - 1);
    }
  }

  /** The pairs whose kept edge was turned round are told by the places where one stands. */
  lemma SwappedPlaces(conv: Conventions, nodes: seq<Node>, s: seq<Edge>)
    requires UniqueIds(nodes)
    ensures var cls := ClassesOf(conv, nodes);
            forall i :: 0 <= i < |s| && s[i].etype == "tested_by" && KeepsPlace(conv, nodes, s, i) ==>
              (Turned(conv, nodes, s, i) <==> Ends(conv, nodes, s[i]) in SwappedPairs(cls, s))
  {
    hide ClassesOf, UniqueIds, Best, Survivor, Between, Joins, Ends, NoneBefore, Survives, PairSet, Inverted;
    var cls := ClassesOf(conv, nodes);
    forall i | 0 <= i < |s| && s[i].etype == "tested_by" && KeepsPlace(conv, nodes, s, i)
      ensures Turned(conv, nodes, s, i) <==> Ends(conv, nodes, s[i]) in SwappedPairs(cls, s)
    {
      var p := Ends(conv, nodes, s[i]);
      PairsByPaths(conv, nodes, s[i], p);
      assert Occurs(cls, s, p);
      TurnedMeansInverted(conv, nodes, s, p);
      assert p in PairSet(cls, s);
    }
  }

  lemma TurnedMeansInverted(conv: Conventions, nodes: seq<Node>, s: seq<Edge>, p: Pair)
    requires UniqueIds(nodes) && Occurs(ClassesOf(conv, nodes), s, p)
    ensures (exists j: nat :: Best(conv, nodes, s, p, j) && s[j].source != p.production) <==>
            Inverted(ClassesOf(conv, nodes), s[Survivor(ClassesOf(conv, nodes), s, p)])
  {
    hide ClassesOf, UniqueIds, Best, Survivor, Joins, Survives, Inverted;
    var cls := ClassesOf(conv, nodes);
    var k := Survivor(cls, s, p);
    WrittenForPair(conv, nodes, s, p);
    PairsByPaths(conv, nodes, s[k], p);
    forall j: nat ensures Best(conv, nodes, s, p, j) ==> j == k {
      SurvivesMeansBest(conv, nodes, s, p, j);
      if Best(conv, nodes, s, p, j) { SurvivorUnique(cls, s, p, j); }
    }
  }

  /** A one-to-one image is as large as what it is the image of. */
  lemma {:induction false} SameSize(a: set<nat>, f: nat -> Pair, b: set<Pair>)
    requires forall x :: x in a ==> f(x) in b
    requires forall x, y :: x in a && y in a && f(x) == f(y) ==> x == y
    requires forall p :: p in b ==> exists x :: x in a && f(x) == p
    ensures |a| == |b|
  {
    if a == {} {
      assert b == {};
    } else {
      var x :| x in a;
      SameSize(a - {x}, f, b - {f(x)});
    }
  }

  lemma {:induction false} PlacesAre(conv: Conventions, nodes: seq<Node>, s: seq<Edge>, n: nat, i: nat)
    requires n <= |s|
    ensures i in Places(conv, nodes, s, n) <==> i < n && KeepsPlace(conv, nodes, s, i)
  {
    hide KeepsPlace;
    if n > 0 { PlacesAre(conv, nodes, s, n - 1, i); }
  }

  /** The places where an edge was turned round. */
  ghost function TurnedPlaces(conv: Conventions, nodes: seq<Node>, s: seq<Edge>): set<nat> {
    set i: nat | i < |s| && KeepsPlace(conv, nodes, s, i) && Turned(conv, nodes, s, i)
  }

  lemma OnePlaceEach(conv: Conventions, nodes: seq<Node>, s: seq<Edge>, i: nat, j: nat)
    requires i in TurnedPlaces(conv, nodes, s) && j in TurnedPlaces(conv, nodes, s)
    requires Ends(conv, nodes, s[i]) == Ends(conv, nodes, s[j])
    ensures i == j
  {
    hide Joins, Ends;
    var p := Ends(conv, nodes, s[i]);
    assert NoneBefore(conv, nodes, s, p, i) && NoneBefore(conv, nodes, s, p, j);
  }

  lemma HasPlace(conv: Conventions, nodes: seq<Node>, s: seq<Edge>, p: Pair)
    requires UniqueIds(nodes) && p in SwappedPairs(ClassesOf(conv, nodes), s)
    ensures exists i :: i in TurnedPlaces(conv, nodes, s) && Ends(conv, nodes, s[i]) == p
  {
    hide ClassesOf, UniqueIds, Best, Survivor, Joins, Ends, Survives, Turned, Inverted;
    var cls := ClassesOf(conv, nodes);
    var i := First(cls, s, p);
    PairsByPaths(conv, nodes, s[i], p);
    FirstInPlace(conv, nodes, s, p, i);
    JoinsAreTested(conv, nodes, s[i], p);
    SwappedPlaces(conv, nodes, s);
    assert i in TurnedPlaces(conv, nodes, s);
  }

  lemma JoinsAreTested(conv: Conventions, nodes: seq<Node>, e: Edge, p: Pair)
    ensures Joins(conv, nodes, e, p) ==> e.etype == "tested_by"
  {}

  lemma SwappedAreTurned(conv: Conventions, nodes: seq<Node>, s: seq<Edge>)
    requires UniqueIds(nodes)
    ensures |SwappedPairs(ClassesOf(conv, nodes), s)| == |TurnedPlaces(conv, nodes, s)|
  {
    hide ClassesOf, UniqueIds, Ends, SwappedPairs, KeepsPlace;
    var cls, turned := ClassesOf(conv, nodes), TurnedPlaces(conv, nodes, s);
    SwappedPlaces(conv, nodes, s);
    forall p | p in SwappedPairs(cls, s) ensures exists i :: i in turned && Ends(conv, nodes, s[i]) == p {
      HasPlace(conv, nodes, s, p);
    }
    forall i, j | i in turned && j in turned && Ends(conv, nodes, s[i]) == Ends(conv, nodes, s[j]) ensures i == j {
      OnePlaceEach(conv, nodes, s, i, j);
    }
    SameSize(turned, (i: nat) => if i < |s| then Ends(conv, nodes, s[i]) else Pair("", ""), SwappedPairs(cls, s));
  }

  // ---- main result ----------------------------------------------------------------------------------

  /** Pass 1: the edges that are no `tested_by` edges and the first of each pair keep their places, in order, and every
      other edge is dropped; in a pair's place stands its best edge, turned round when it arrived upside down, and
      `swapped` counts the places where that happened. */
  lemma PassOneExactly(conv: Conventions, nodes: seq<Node>, edges: seq<Edge>)
    requires UniqueIds(nodes)
    ensures var r, places := Link(conv, nodes, edges), Places(conv, nodes, edges, |edges|);
            && |r.edges| == |places| + r.added && r.dropped == |edges| - |places|
            && (forall q :: 0 <= q < |places| ==> Stands(conv, nodes, edges, places[q], r.edges[q]))
            && r.swapped == |TurnedPlaces(conv, nodes, edges)|
  {
    hide ClassesOf, UniqueIds, SwappedPairs, TurnedPlaces, Stands, TagSources, NewlyTagged, Sources, PairsOf, PairSet;
    hide Supplements, TestsOf, NodeAt;
    PlacesUpTo(conv, nodes, edges, |edges|);
    SwappedAreTurned(conv, nodes, edges);
    var r, kept := Link(conv, nodes, edges), Linked(ClassesOf(conv, nodes), edges);
    assert forall q :: 0 <= q < |kept| ==> r.edges[q] == kept[q];
  }

  // ---- tags -------------------------------------------------------------------------------------------

  /** A node gains the tag, behind the ones it has, exactly when it has none and is the source of a `tested_by` edge of
      the result; no other node changes, and `tagged` counts those that do. */
  lemma TagsExactly(conv: Conventions, nodes: seq<Node>, edges: seq<Edge>)
    requires UniqueIds(nodes)
    ensures var r := Link(conv, nodes, edges);
            && |r.nodes| == |nodes|
            && (forall i :: 0 <= i < |nodes| ==>
                  var had := if nodes[i].tags.TagList? then nodes[i].tags.items else [];
                  r.nodes[i] ==
                  if "tested" !in had && exists e :: e in r.edges && e.etype == "tested_by" && e.source == nodes[i].id
                  then nodes[i].(tags := TagList(had + ["tested"])) else nodes[i])
            && r.tagged == |set i: nat | i < |nodes| && r.nodes[i] != nodes[i]|
  {
    hide Linked, ClassesOf, PathOf, Added, UniqueIds, PairSet, PairsOf, Clean;
    var r, cls := Link(conv, nodes, edges), ClassesOf(conv, nodes);
    ResultIsClean(conv, nodes, edges);
    SourcesOfClean(cls, r.edges);
    var sources := Sources(PairSet(cls, edges) + PairsOf(Added(conv, nodes, edges)));
    hide Sources;
    assert NewlyTagged(nodes, sources) == set i: nat | i < |nodes| && r.nodes[i] != nodes[i];
  }

  /** Which nodes are files, and where: the recorded path, or else what follows the prefix of the id. */
  lemma FilePaths(rest: string, path: string, tags: Tags)
    ensures PathOf(Node("file:" + rest, path, tags)) == Some(if path == "" then rest else path)
  {}

  lemma OtherNodesAreNoFiles(n: Node)
    ensures PathOf(n).Some? ==> exists rest :: n.id == "file:" + rest
  {
    if PathOf(n).Some? { assert n.id == "file:" + n.id[5..]; }
  }
}
