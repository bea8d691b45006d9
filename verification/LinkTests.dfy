// The deterministic `tested_by` linker: what it does to a graph, as one function of the graph.
module LinkTests {
  import opened Wrappers
  import opened NodeLists
  import opened TestedBy

  /** A node's `tags` as they arrive from a batch file. */
  datatype Tags = NotAList | TagList(items: seq<string>)

  /** The part of a node the linker reads or writes; `filePath` is empty when absent or not a string. */
  datatype Node = Node(id: string, filePath: string, tags: Tags)

  function IdOf(n: Node): string { n.id }

  /** `is_test_path` and `production_candidates`, whatever they answer. */
  datatype Conventions = Conventions(isTest: string -> bool, candidates: string -> seq<string>)

  const FILE_PREFIX: string := "file:"
  const TESTED: string := "tested"

  /** The values of `nodes_by_id`, in order: its keys are the ids. */
  predicate UniqueIds(nodes: seq<Node>) {
    forall i, j :: 0 <= i < j < |nodes| ==> nodes[i].id != nodes[j].id
  }

  // ---- the index -----------------------------------------------------------------------

  /** `_file_node_path`. */
  function PathOf(n: Node): Option<string> {
    if !(FILE_PREFIX <= n.id) then None
    else if n.filePath != "" then Some(n.filePath)
    else Some(n.id[|FILE_PREFIX|..])
  }

  function Classify(conv: Conventions, path: string): Class {
    if conv.isTest(path) then Test else Production
  }

  function ClassesOf(conv: Conventions, nodes: seq<Node>): (cls: Classes)
    ensures forall id :: id in cls ==> exists n :: n in nodes && n.id == id && PathOf(n).Some?
  {
    if nodes == [] then map[]
    else
      var n := nodes[|nodes| - 1];
      var rest := ClassesOf(conv, nodes[..|nodes| - 1]);
      match PathOf(n)
      case None => rest
      case Some(path) => rest[n.id := Classify(conv, path)]
  }

  /** Which node answers for a path: the last one that has it. */
  function NodeAt(nodes: seq<Node>): (byPath: map<string, string>)
    ensures forall path :: path in byPath ==> exists n :: n in nodes && n.id == byPath[path] && PathOf(n) == Some(path)
  {
    if nodes == [] then map[]
    else
      var n := nodes[|nodes| - 1];
      var rest := NodeAt(nodes[..|nodes| - 1]);
      match PathOf(n)
      case None => rest
      case Some(path) => rest[path := n.id]
  }

  function TestsOf(conv: Conventions, nodes: seq<Node>): (tests: seq<Node>)
    ensures forall n :: n in tests <==> n in nodes && PathOf(n).Some? && conv.isTest(PathOf(n).value)
  {
    if nodes == [] then []
    else
      var n := nodes[|nodes| - 1];
      var rest := TestsOf(conv, nodes[..|nodes| - 1]);
      if PathOf(n).Some? && conv.isTest(PathOf(n).value) then rest + [n] else rest
  }

  // ---- pass 1 ----------------------------------------------------------------------------

  function PairSet(cls: Classes, s: seq<Edge>): (pairs: set<Pair>)
    ensures forall p :: p in pairs <==> Occurs(cls, s, p)
  {
    var pairs := set i | 0 <= i < |s| && Read(cls, s[i]).Pairing? :: Read(cls, s[i]).pair;
    assert forall p :: Occurs(cls, s, p) ==> p in pairs by {
      forall p | Occurs(cls, s, p) ensures p in pairs {
        var i :| 0 <= i < |s| && Pairs(cls, s[i], p);
        assert Read(cls, s[i]).pair == p;
      }
    }
    assert forall p :: p in pairs ==> Occurs(cls, s, p) by {
      forall p | p in pairs ensures Occurs(cls, s, p) {
        var i :| 0 <= i < |s| && Read(cls, s[i]).Pairing? && Read(cls, s[i]).pair == p;
        assert Pairs(cls, s[i], p);
      }
    }
    pairs
  }

  /** The pairs whose kept edge arrived upside down. */
  function SwappedPairs(cls: Classes, s: seq<Edge>): set<Pair> {
    set p | p in PairSet(cls, s) && Inverted(cls, s[Survivor(cls, s, p)])
  }

  // ---- pass 2 ----------------------------------------------------------------------------

  /** The first candidate that is a known file and not itself a test. */
  function FirstUsable(conv: Conventions, byPath: map<string, string>, candidates: seq<string>): (found: Option<string>)
    ensures found.Some? ==> found.value in candidates && found.value in byPath && !conv.isTest(found.value)
    ensures found.None? ==> forall c :: c in candidates && c in byPath ==> conv.isTest(c)
  {
    if candidates == [] then None
    else if candidates[0] in byPath && !conv.isTest(candidates[0]) then Some(candidates[0])
    else FirstUsable(conv, byPath, candidates[1..])
  }

  function Supplement(production: string, test: string): Edge {
    Edge(production, test, TESTED_BY, "forward", Num(0.5), "Path-based pairing (deterministic)")
  }

  /** The edge a test file gets: none when pass 1 paired it or no candidate will do. */
  function SupplementFor(conv: Conventions, byPath: map<string, string>, covered: set<Pair>, t: Node): (r: seq<Edge>)
    requires PathOf(t).Some?
    ensures |r| <= 1
  {
    if exists p :: p in covered && p.test == t.id then []
    else match FirstUsable(conv, byPath, conv.candidates(PathOf(t).value))
         case None => []
         case Some(c) => [Supplement(byPath[c], t.id)]
  }

  function Supplements(conv: Conventions, byPath: map<string, string>, covered: set<Pair>, tests: seq<Node>): seq<Edge>
    requires forall t :: t in tests ==> PathOf(t).Some?
  {
    if tests == [] then []
    else
      var n := |tests| - 1;
      Supplements(conv, byPath, covered, tests[..n]) + SupplementFor(conv, byPath, covered, tests[n])
  }

  function PairOf(e: Edge): Pair { Pair(e.source, e.target) }

  function PairsOf(s: seq<Edge>): set<Pair> {
    set i | 0 <= i < |s| :: PairOf(s[i])
  }

  // ---- tags ------------------------------------------------------------------------------

  predicate HasTag(n: Node) { n.tags.TagList? && TESTED in n.tags.items }

  /** `_ensure_tested_tag`: a `tags` that is no list is replaced by a fresh one. */
  function Tag(n: Node): (r: Node)
    ensures HasTag(r) && (HasTag(n) ==> r == n)
    ensures r.id == n.id && PathOf(r) == PathOf(n)
  {
    if HasTag(n) then n
    else n.(tags := TagList((if n.tags.TagList? then n.tags.items else []) + [TESTED]))
  }

  function TagSources(nodes: seq<Node>, sources: set<string>): (r: seq<Node>)
    ensures |r| == |nodes|
  {
    seq(|nodes|, i requires 0 <= i < |nodes| => if nodes[i].id in sources then Tag(nodes[i]) else nodes[i])
  }

  function NewlyTagged(nodes: seq<Node>, sources: set<string>): set<nat> {
    set i: nat | i < |nodes| && nodes[i].id in sources && !HasTag(nodes[i])
  }

  function Sources(pairs: set<Pair>): set<string> {
    set p | p in pairs :: p.production
  }

  // ---- the whole linker --------------------------------------------------------------------

  datatype Outcome = Outcome(nodes: seq<Node>, edges: seq<Edge>, added: nat, dropped: nat, tagged: nat, swapped: nat)

  function Added(conv: Conventions, nodes: seq<Node>, edges: seq<Edge>): seq<Edge> {
    Supplements(conv, NodeAt(nodes), PairSet(ClassesOf(conv, nodes), edges), TestsOf(conv, nodes))
  }

  function Link(conv: Conventions, nodes: seq<Node>, edges: seq<Edge>): Outcome {
    var cls := ClassesOf(conv, nodes);
    var kept, extra := Linked(cls, edges), Added(conv, nodes, edges);
    var sources := Sources(PairSet(cls, edges) + PairsOf(extra));
    Outcome(TagSources(nodes, sources), kept + extra,
            |extra|, |edges| - |kept|, |NewlyTagged(nodes, sources)|, |SwappedPairs(cls, edges)|)
  }

  // ---- the linker as it runs -----------------------------------------------------------------

  lemma PairSetMore(cls: Classes, t: seq<Edge>, e: Edge)
    ensures PairSet(cls, t + [e]) == PairSet(cls, t) + if Read(cls, e).Pairing? then {Read(cls, e).pair} else {}
    ensures forall p :: p in PairSet(cls, t) ==> Occurs(cls, t, p) && Occurs(cls, t + [e], p)
  {
    forall p ensures p in PairSet(cls, t + [e]) <==>
                     p in PairSet(cls, t) || (Read(cls, e).Pairing? && p == Read(cls, e).pair)
    {
      OccursMore(cls, t, e, p);
    }
  }

  lemma SwappedMore(cls: Classes, t: seq<Edge>, e: Edge)
    ensures var r := Read(cls, e);
            SwappedPairs(cls, t + [e]) ==
            if r.Pairing? && (!Occurs(cls, t, r.pair) || Replaces(cls, t, e))
            then (if r.inverted then SwappedPairs(cls, t) + {r.pair} else SwappedPairs(cls, t) - {r.pair})
            else SwappedPairs(cls, t)
    ensures forall p :: p in SwappedPairs(cls, t) ==> Occurs(cls, t, p)
  {
    hide Survivor, Heavier, PairSet;
    var s, r := t + [e], Read(cls, e);
    PairSetMore(cls, t, e);
    assert s[|t|] == e;
    forall p | p in PairSet(cls, s)
      ensures Occurs(cls, s, p)
      ensures p in PairSet(cls, t) <==> Occurs(cls, t, p)
      ensures s[Survivor(cls, s, p)] ==
              if Occurs(cls, t, p) && !(Pairs(cls, e, p) && Replaces(cls, t, e)) then t[Survivor(cls, t, p)] else e
    {
      OccursMore(cls, t, e, p);
      SurvivorMore(cls, t, e, p);
    }
    forall p ensures p in SwappedPairs(cls, s) <==>
                     p in (if r.Pairing? && (!Occurs(cls, t, r.pair) || Replaces(cls, t, e))
                           then (if r.inverted then SwappedPairs(cls, t) + {r.pair}
                                 else SwappedPairs(cls, t) - {r.pair})
                           else SwappedPairs(cls, t))
    {
      if p in PairSet(cls, s) {
        if Occurs(cls, t, p) && !(Pairs(cls, e, p) && Replaces(cls, t, e)) {
          assert p in PairSet(cls, t);
        }
      }
    }
  }

  /** Tagging one more source touches at most one node. */
  lemma TagMoreNodes(nodes: seq<Node>, done: set<string>, source: string)
    requires UniqueIds(nodes)
    ensures var now, k := TagSources(nodes, done), IndexOf(TagSources(nodes, done), IdOf, source);
            && TagSources(nodes, done + {source}) == (if k.None? then now else now[k.value := Tag(now[k.value])])
            && forall i :: 0 <= i < |nodes| ==> now[i].id == nodes[i].id && (nodes[i].id == source <==> k == Some(i))
  {
    hide HasTag, Tag, PathOf, IndexOf;
    var now, next := TagSources(nodes, done), TagSources(nodes, done + {source});
    assert forall i :: 0 <= i < |nodes| ==> now[i].id == nodes[i].id;
    var k := IndexOf(now, IdOf, source);
    forall i | 0 <= i < |nodes|
      ensures nodes[i].id == source <==> k == Some(i)
      ensures next[i] == if nodes[i].id == source then Tag(now[i]) else now[i]
    {}
  }

  lemma TagMore(nodes: seq<Node>, done: set<string>, source: string)
    requires UniqueIds(nodes)
    ensures var now, k := TagSources(nodes, done), IndexOf(TagSources(nodes, done), IdOf, source);
            && TagSources(nodes, done + {source}) == (if k.None? then now else now[k.value := Tag(now[k.value])])
            && |NewlyTagged(nodes, done + {source})| ==
               |NewlyTagged(nodes, done)| + if k.None? || HasTag(now[k.value]) then 0 else 1
  {
    hide HasTag, Tag, PathOf, IndexOf, UniqueIds;
    TagMoreNodes(nodes, done, source);
    var now := TagSources(nodes, done);
    var k := IndexOf(now, IdOf, source);
    if k.Some? && !HasTag(now[k.value]) {
      assert k.value !in NewlyTagged(nodes, done);
      assert NewlyTagged(nodes, done + {source}) == NewlyTagged(nodes, done) + {k.value};
    } else {
      assert NewlyTagged(nodes, done + {source}) == NewlyTagged(nodes, done);
    }
  }

  lemma {:induction false} TestsUnique(conv: Conventions, nodes: seq<Node>)
    requires UniqueIds(nodes)
    ensures UniqueIds(TestsOf(conv, nodes))
  {
    if nodes != [] {
      var n := |nodes| - 1;
      TestsUnique(conv, nodes[..n]);
      assert forall t :: t in nodes[..n] ==> t.id != nodes[n].id;
    }
  }

  lemma {:induction false} SupplementsAreForTests(conv: Conventions, byPath: map<string, string>, covered: set<Pair>,
                                                  tests: seq<Node>)
    requires forall t :: t in tests ==> PathOf(t).Some?
    ensures forall e :: e in Supplements(conv, byPath, covered, tests) ==> exists t :: t in tests && t.id == e.target
  {
    if tests != [] { SupplementsAreForTests(conv, byPath, covered, tests[..|tests| - 1]); }
  }

  lemma NoSupplements(conv: Conventions, byPath: map<string, string>, covered: set<Pair>)
    ensures Supplements(conv, byPath, covered, []) == []
  {}

  lemma SupplementsMore(conv: Conventions, byPath: map<string, string>, covered: set<Pair>, tests: seq<Node>, j: nat)
    requires j < |tests| && forall t :: t in tests ==> PathOf(t).Some?
    ensures Supplements(conv, byPath, covered, tests[..j + 1]) ==
            Supplements(conv, byPath, covered, tests[..j]) + SupplementFor(conv, byPath, covered, tests[j])
  {
    hide SupplementFor, PathOf;
    assert tests[..j + 1][..j] == tests[..j];
  }

  lemma TargetsOfPairs(s: seq<Edge>)
    ensures forall p :: p in PairsOf(s) ==> exists e :: e in s && e.target == p.test
  {}

  lemma PairsOfMore(s: seq<Edge>, more: seq<Edge>)
    ensures PairsOf(s + more) == PairsOf(s) + PairsOf(more)
    ensures |more| == 1 ==> PairsOf(more) == {PairOf(more[0])}
    ensures more == [] ==> PairsOf(more) == {} && s + more == s
  {
    forall i | 0 <= i < |s| + |more| ensures PairOf((s + more)[i]) in PairsOf(s) + PairsOf(more) {
      if i < |s| { assert (s + more)[i] == s[i]; } else { assert (s + more)[i] == more[i - |s|]; }
    }
    forall i | 0 <= i < |s| ensures PairOf(s[i]) in PairsOf(s + more) { assert (s + more)[i] == s[i]; }
    forall i | 0 <= i < |more| ensures PairOf(more[i]) in PairsOf(s + more) { assert (s + more)[|s| + i] == more[i]; }
  }

  class Graph {
    var nodes: seq<Node>
    var edges: seq<Edge>

    constructor (nodes: seq<Node>, edges: seq<Edge>)
      ensures this.nodes == nodes && this.edges == edges
    {
      this.nodes, this.edges := nodes, edges;
    }

    /** Pass 1: compacts `edges` in place while reading it. */
    method Canonicalize(cls: Classes) returns (covered: set<Pair>, dropped: nat, swapped: nat)
      modifies this`edges
      ensures edges == Linked(cls, old(edges))
      ensures covered == PairSet(cls, old(edges))
      ensures dropped == |old(edges)| - |edges|
      ensures swapped == |SwappedPairs(cls, old(edges))|
    {
      hide Linked, PairSet, SwappedPairs, Compacted, Read, Swap, Heavier;
      covered, dropped := {}, 0;
      var slotOf: map<Pair, nat> := map[];
      var swappedPairs: set<Pair> := {};
      var write := 0;
      var i := 0;
      ghost var was := edges;
      NothingCompacted(cls);
      while i < |edges|
        invariant 0 <= write <= i <= |was| == |edges|
        invariant edges[i..] == was[i..]
        invariant Compacted(cls, was[..i], edges[..write], covered, slotOf, swappedPairs)
        invariant dropped == i - write
      {
        var edge := edges[i];
        ghost var t, out := was[..i], edges[..write];
        assert edge == was[i] && was[..i + 1] == t + [edge];
        var reading := Read(cls, edge);
        Step(cls, t, edge, out, covered, slotOf, swappedPairs);
        if reading.Other? {
          edges := edges[write := edge];
          write := write + 1;
          assert edges[..write] == out + [edge];
        } else if reading.Broken? {
          dropped := dropped + 1;
        } else if reading.pair in covered {
          var existing := edges[slotOf[reading.pair]];
          if Heavier(edge.weight, existing.weight) {
            var kept := edge;
            if reading.inverted {
              kept := Swap(edge);
              swappedPairs := swappedPairs + {reading.pair};
            } else {
              swappedPairs := swappedPairs - {reading.pair};
            }
            edges := edges[slotOf[reading.pair] := kept];
            assert edges[..write] == out[slotOf[reading.pair] := kept];
          }
          dropped := dropped + 1;
        } else {
          var kept := edge;
          if reading.inverted {
            kept := Swap(edge);
            swappedPairs := swappedPairs + {reading.pair};
          }
          covered := covered + {reading.pair};
          slotOf := slotOf[reading.pair := write];
          edges := edges[write := kept];
          write := write + 1;
          assert edges[..write] == out + [kept];
        }
        i := i + 1;
      }
      assert was[..i] == was;
      CompactedMeaning(cls, was, edges[..write], covered, slotOf, swappedPairs);
      edges := edges[..write];
      swapped := |swappedPairs|;
    }

    /** The search of pass 2 for one unpaired test file. */
    method SupplementTest(conv: Conventions, byPath: map<string, string>, path: string, test: string, paired: set<Pair>)
      returns (covered: set<Pair>, found: bool)
      requires forall p :: p in paired ==> p.test != test
      modifies this`edges
      ensures var c := FirstUsable(conv, byPath, conv.candidates(path));
              && found == c.Some?
              && edges == old(edges) + (if found then [Supplement(byPath[c.value], test)] else [])
              && covered == paired + (if found then {Pair(byPath[c.value], test)} else {})
    {
      var candidates := conv.candidates(path);
      covered, found := paired, false;
      var k := 0;
      while k < |candidates| && !found
        invariant k <= |candidates|
        invariant !found ==> FirstUsable(conv, byPath, candidates) == FirstUsable(conv, byPath, candidates[k..])
                             && edges == old(edges) && covered == paired
        invariant found ==> var c := FirstUsable(conv, byPath, candidates);
                            && c.Some?
                            && edges == old(edges) + [Supplement(byPath[c.value], test)]
                            && covered == paired + {Pair(byPath[c.value], test)}
      {
        var candidate := candidates[k];
        if candidate in byPath && !conv.isTest(candidate) {
          var pair := Pair(byPath[candidate], test);
          if pair !in covered {
            edges := edges + [Supplement(pair.production, pair.test)];
            covered := covered + {pair};
            found := true;
          }
        }
        k := k + 1;
      }
    }

    /** Pass 2: an edge by path convention for every test file pass 1 left unpaired. */
    method SupplementUnpaired(conv: Conventions, byPath: map<string, string>, tests: seq<Node>, paired: set<Pair>)
      returns (covered: set<Pair>, added: nat)
      requires UniqueIds(tests) && forall t :: t in tests ==> PathOf(t).Some?
      modifies this`edges
      ensures var extra := Supplements(conv, byPath, paired, tests);
              edges == old(edges) + extra && covered == paired + PairsOf(extra) && added == |extra|
    {
      hide FirstUsable, PairsOf, PathOf, Supplements;
      NoSupplements(conv, byPath, paired);
      var pairedTests := set p | p in paired :: p.test;
      covered, added := paired, 0;
      PairsOfMore([], []);
      for j := 0 to |tests|
        invariant var extra := Supplements(conv, byPath, paired, tests[..j]);
                  edges == old(edges) + extra && covered == paired + PairsOf(extra) && added == |extra|
      {
        var t := tests[j];
        ghost var extra := Supplements(conv, byPath, paired, tests[..j]);
        ghost var one := SupplementFor(conv, byPath, paired, t);
        SupplementsMore(conv, byPath, paired, tests, j);
        PairsOfMore(extra, one);
        if t.id !in pairedTests {
          SupplementsAreForTests(conv, byPath, paired, tests[..j]);
          TargetsOfPairs(extra);
          var found;
          covered, found := SupplementTest(conv, byPath, PathOf(t).value, t.id, covered);
          if found { added := added + 1; }
        }
      }
      assert tests[..|tests|] == tests;
    }

    /** Tags the production side of every covered pair, in any order. */
    method TagProductions(covered: set<Pair>) returns (tagged: nat)
      requires UniqueIds(nodes)
      modifies this`nodes
      ensures nodes == TagSources(old(nodes), Sources(covered))
      ensures tagged == |NewlyTagged(old(nodes), Sources(covered))|
    {
      tagged := 0;
      var rest := covered;
      ghost var done: set<string> := {};
      assert nodes == TagSources(old(nodes), {}) && NewlyTagged(old(nodes), {}) == {};
      while rest != {}
        invariant rest <= covered && done == Sources(covered - rest)
        invariant nodes == TagSources(old(nodes), done)
        invariant tagged == |NewlyTagged(old(nodes), done)|
      {
        var pair :| pair in rest;
        assert covered - (rest - {pair}) == covered - rest + {pair};
        rest := rest - {pair};
        TagMore(old(nodes), done, pair.production);
        done := done + {pair.production};
        var found := IndexOf(nodes, IdOf, pair.production);
        if found.Some? {
          var k := found.value;
          if !HasTag(nodes[k]) { tagged := tagged + 1; }
          nodes := nodes[k := Tag(nodes[k])];
        }
      }
      assert covered - rest == covered;
    }

    /** `link_tests`. */
    method LinkTests(conv: Conventions) returns (added: nat, dropped: nat, tagged: nat, swapped: nat)
      requires UniqueIds(nodes)
      modifies this
      ensures Outcome(nodes, edges, added, dropped, tagged, swapped) == Link(conv, old(nodes), old(edges))
    {
      hide PathOf, Linked, Supplements, TagSources, NewlyTagged, Sources, SwappedPairs, PairSet, PairsOf, UniqueIds;
      var cls: Classes := map[];
      var byPath: map<string, string> := map[];
      var tests: seq<Node> := [];
      for i := 0 to |nodes|
        invariant cls == ClassesOf(conv, nodes[..i])
        invariant byPath == NodeAt(nodes[..i])
        invariant tests == TestsOf(conv, nodes[..i])
      {
        assert nodes[..i + 1][..i] == nodes[..i];
        var node := nodes[i];
        var path := PathOf(node);
        if path.Some? {
          byPath := byPath[path.value := node.id];
          if conv.isTest(path.value) {
            cls := cls[node.id := Test];
            tests := tests + [node];
          } else {
            cls := cls[node.id := Production];
          }
        }
      }
      assert nodes[..|nodes|] == nodes;
      TestsUnique(conv, nodes);
      var covered;
      covered, dropped, swapped := Canonicalize(cls);
      covered, added := SupplementUnpaired(conv, byPath, tests, covered);
      tagged := TagProductions(covered);
    }
  }

  /** Where pass 1 stands after reading the edges `t`: what is written, and its three tables. */
  ghost predicate Compacted(cls: Classes, t: seq<Edge>, out: seq<Edge>,
                            covered: set<Pair>, slotOf: map<Pair, nat>, swappedPairs: set<Pair>)
  {
    && out == Linked(cls, t)
    && covered == PairSet(cls, t) == slotOf.Keys
    && (forall p :: p in covered ==> Occurs(cls, t, p) && slotOf[p] == Slot(cls, t, p))
    && swappedPairs == SwappedPairs(cls, t)
  }

  lemma NothingCompacted(cls: Classes)
    ensures Compacted(cls, [], [], {}, map[], {})
  {}

  lemma CompactedMeaning(cls: Classes, t: seq<Edge>, out: seq<Edge>,
                         covered: set<Pair>, slotOf: map<Pair, nat>, swappedPairs: set<Pair>)
    requires Compacted(cls, t, out, covered, slotOf, swappedPairs)
    ensures out == Linked(cls, t) && covered == PairSet(cls, t) && swappedPairs == SwappedPairs(cls, t)
  {}

  /** What each branch of the loop must do with the next edge. */
  lemma Step(cls: Classes, t: seq<Edge>, e: Edge, out: seq<Edge>,
             covered: set<Pair>, slotOf: map<Pair, nat>, swappedPairs: set<Pair>)
    requires Compacted(cls, t, out, covered, slotOf, swappedPairs)
    ensures var r, s := Read(cls, e), t + [e];
            && (r.Other? ==> Compacted(cls, s, out + [e], covered, slotOf, swappedPairs))
            && (r.Broken? ==> Compacted(cls, s, out, covered, slotOf, swappedPairs))
            && (r.Pairing? && r.pair in covered ==>
                  && r.pair in slotOf && slotOf[r.pair] < |out|
                  && if Heavier(e.weight, out[slotOf[r.pair]].weight)
                     then Compacted(cls, s, out[slotOf[r.pair] := if r.inverted then Swap(e) else e], covered, slotOf,
                                    if r.inverted then swappedPairs + {r.pair} else swappedPairs - {r.pair})
                     else Compacted(cls, s, out, covered, slotOf, swappedPairs))
            && (r.Pairing? && r.pair !in covered ==>
                  Compacted(cls, s, out + [if r.inverted then Swap(e) else e], covered + {r.pair},
                            slotOf[r.pair := |out|],
                            if r.inverted then swappedPairs + {r.pair} else swappedPairs))
  {
    hide Read, Swap, Canonical, Survivor, Heavier, PairSet, SwappedPairs, Linked, Slot, Occurs, Replaces, FirstOf;
    hide Pairs;
    LinkedMore(cls, t, e);
    PairSetMore(cls, t, e);
    SwappedMore(cls, t, e);
    SlotsMore(cls, t, e);
    CanonicalByReading(cls, e);
    var r := Read(cls, e);
    if r.Pairing? && r.pair in covered {
      SlotHoldsSurvivor(cls, t, r.pair);
      ReplacesByWeight(cls, t, e, out[slotOf[r.pair]]);
    }
  }

  lemma SlotsMore(cls: Classes, t: seq<Edge>, e: Edge)
    ensures forall p :: Occurs(cls, t, p) ==> Occurs(cls, t + [e], p) && Slot(cls, t + [e], p) == Slot(cls, t, p)
    ensures var r := Read(cls, e);
            r.Pairing? && !Occurs(cls, t, r.pair) ==>
              Occurs(cls, t + [e], r.pair) && Slot(cls, t + [e], r.pair) == |Linked(cls, t)|
  {
    hide Slot, Occurs, Linked;
    forall p | Occurs(cls, t + [e], p)
      ensures Slot(cls, t + [e], p) == if Occurs(cls, t, p) then Slot(cls, t, p) else |Linked(cls, t)|
    {
      SlotMore(cls, t, e, p);
    }
    forall p ensures Occurs(cls, t + [e], p) <==> Occurs(cls, t, p) || Pairs(cls, e, p) {
      OccursMore(cls, t, e, p);
    }
  }

  /** The kept edge has the survivor's weight, so the slot answers the comparison. */
  lemma ReplacesByWeight(cls: Classes, t: seq<Edge>, e: Edge, existing: Edge)
    requires Read(cls, e).Pairing? && Occurs(cls, t, Read(cls, e).pair)
    requires existing == Canonical(cls, t[Survivor(cls, t, Read(cls, e).pair)])
    ensures Heavier(e.weight, existing.weight) <==> Replaces(cls, t, e)
  {}

  lemma CanonicalByReading(cls: Classes, e: Edge)
    ensures Read(cls, e).Pairing? ==> Canonical(cls, e) == if Read(cls, e).inverted then Swap(e) else e
  {}
}
