// What the linker promises about every graph: nothing but `tested_by` edges is touched, each pairing
// keeps one upright edge, the counters account for every edge, and linking again changes nothing.
module LinkTheorems {
  import opened Wrappers
  import opened TestedBy
  import opened LinkTests

  function Only(e: Edge, tested: bool): seq<Edge> {
    if (e.etype == TESTED_BY) == tested then [e] else []
  }

  /** The `tested_by` edges of a list, or the others. */
  function Select(s: seq<Edge>, tested: bool): seq<Edge> {
    if s == [] then [] else Select(s[..|s| - 1], tested) + Only(s[|s| - 1], tested)
  }

  lemma {:induction false} SelectConcat(s: seq<Edge>, t: seq<Edge>, tested: bool)
    ensures Select(s + t, tested) == Select(s, tested) + Select(t, tested)
  {
    hide Only;
    if t == [] {
      assert s + t == s;
    } else {
      var n := |t| - 1;
      assert (s + t)[..|s| + n] == s + t[..n] && (s + t)[|s| + n] == t[n];
      SelectConcat(s, t[..n], tested);
    }
  }

  lemma {:induction false} SelectSizes(s: seq<Edge>)
    ensures |Select(s, true)| + |Select(s, false)| == |s|
  {
    if s != [] { SelectSizes(s[..|s| - 1]); }
  }

  // ---- pass 1 ------------------------------------------------------------------------------

  lemma UprightReads(cls: Classes, e: Edge, p: Pair)
    requires Pairs(cls, e, p)
    ensures Read(cls, Canonical(cls, e)) == Pairing(p, false)
    ensures PairOf(Canonical(cls, e)) == p
  {}

  /** Every edge that pass 1 writes comes from the input edge at a known position. */
  lemma {:induction false} Origin(cls: Classes, s: seq<Edge>, m: nat, i: nat) returns (n: nat)
    requires m <= |s| && i < |LinkedUpTo(cls, s, m)|
    ensures n < m && |LinkedUpTo(cls, s, n)| == i && Emit(cls, s, n) == [LinkedUpTo(cls, s, m)[i]]
  {
    hide Emit;
    if i < |LinkedUpTo(cls, s, m - 1)| { n := Origin(cls, s, m - 1, i); } else { n := m - 1; }
  }

  /** A pairing is written in the slot of its own pair, upright. */
  lemma WrittenInItsSlot(cls: Classes, s: seq<Edge>, i: nat)
    requires i < |Linked(cls, s)| && Linked(cls, s)[i].etype == TESTED_BY
    ensures var e := Linked(cls, s)[i];
            && Read(cls, e) == Pairing(PairOf(e), false)
            && Occurs(cls, s, PairOf(e)) && Slot(cls, s, PairOf(e)) == i
  {
    var n := Origin(cls, s, |s|, i);
    var p := Read(cls, s[n]).pair;
    assert Pairs(cls, s[n], p);
    UprightReads(cls, s[Survivor(cls, s, p)], p);
  }

  /** The edges of a graph that needs no repair: upright pairings of distinct pairs. */
  ghost predicate Clean(cls: Classes, s: seq<Edge>) {
    && (forall i :: 0 <= i < |s| && s[i].etype == TESTED_BY ==> Read(cls, s[i]) == Pairing(PairOf(s[i]), false))
    && (forall i, j :: 0 <= i < j < |s| && s[i].etype == TESTED_BY && s[j].etype == TESTED_BY ==>
        PairOf(s[i]) != PairOf(s[j]))
  }

  lemma LinkedIsClean(cls: Classes, s: seq<Edge>)
    ensures Clean(cls, Linked(cls, s))
  {
    var out := Linked(cls, s);
    forall i | 0 <= i < |out| && out[i].etype == TESTED_BY
      ensures Read(cls, out[i]) == Pairing(PairOf(out[i]), false)
      ensures Occurs(cls, s, PairOf(out[i])) && Slot(cls, s, PairOf(out[i])) == i
    {
      WrittenInItsSlot(cls, s, i);
    }
  }

  lemma EmitKeepsOthers(cls: Classes, s: seq<Edge>, i: nat)
    requires i < |s|
    ensures Select(Emit(cls, s, i), false) == Only(s[i], false)
  {
    var r := Read(cls, s[i]);
    if r.Pairing? {
      assert Pairs(cls, s[i], r.pair);
      UprightReads(cls, s[Survivor(cls, s, r.pair)], r.pair);
    }
    if Emit(cls, s, i) != [] {
      var e := Emit(cls, s, i)[0];
      assert Emit(cls, s, i) == [e] && [e][..0] == [];
      assert Select([e], false) == Select([], false) + Only(e, false);
    }
  }

  lemma {:induction false} OthersUntouched(cls: Classes, s: seq<Edge>, n: nat)
    requires n <= |s|
    ensures Select(LinkedUpTo(cls, s, n), false) == Select(s[..n], false)
  {
    hide Emit, Only;
    if n > 0 {
      OthersUntouched(cls, s, n - 1);
      assert s[..n][..n - 1] == s[..n - 1];
      SelectConcat(LinkedUpTo(cls, s, n - 1), Emit(cls, s, n - 1), false);
      EmitKeepsOthers(cls, s, n - 1);
    }
  }

  /** Pass 1: other edges keep content and order; each pair that occurs keeps exactly one edge, the
      earliest of maximal weight, upright, in the slot of its first occurrence; no other `tested_by`
      edge remains, so `dropped` is what `tested_by` lost. */
  lemma PassOneTheorem(cls: Classes, s: seq<Edge>)
    ensures var out := Linked(cls, s);
            && Select(out, false) == Select(s, false)
            && |s| - |out| == |Select(s, true)| - |Select(out, true)|
            && (forall i :: 0 <= i < |out| && out[i].etype == TESTED_BY ==>
                  Read(cls, out[i]) == Pairing(PairOf(out[i]), false) && Occurs(cls, s, PairOf(out[i]))
                  && Slot(cls, s, PairOf(out[i])) == i)
            && (forall p, j: nat :: Survives(cls, s, p, j) ==>
                  Occurs(cls, s, p) && Slot(cls, s, p) < |out| && out[Slot(cls, s, p)] == Canonical(cls, s[j]))
  {
    var out := Linked(cls, s);
    OthersUntouched(cls, s, |s|);
    assert s[..|s|] == s;
    SelectSizes(s);
    SelectSizes(out);
    forall i | 0 <= i < |out| && out[i].etype == TESTED_BY
      ensures Read(cls, out[i]) == Pairing(PairOf(out[i]), false)
      ensures Occurs(cls, s, PairOf(out[i])) && Slot(cls, s, PairOf(out[i])) == i
    {
      WrittenInItsSlot(cls, s, i);
    }
    forall p, j: nat | Survives(cls, s, p, j)
      ensures Occurs(cls, s, p) && Slot(cls, s, p) < |out| && out[Slot(cls, s, p)] == Canonical(cls, s[j])
    {
      SurvivorUnique(cls, s, p, j);
      SlotHoldsSurvivor(cls, s, p);
    }
  }

  /** Slots keep the order in which the pairs first appeared. */
  lemma SlotsInOrder(cls: Classes, s: seq<Edge>, p: Pair, q: Pair)
    requires Occurs(cls, s, p) && Occurs(cls, s, q) && First(cls, s, p) < First(cls, s, q)
    ensures Slot(cls, s, p) < Slot(cls, s, q)
  {
    EmitAtFirst(cls, s, p);
    LinkedUpToGrows(cls, s, First(cls, s, p) + 1, First(cls, s, q));
  }

  lemma {:induction false} CleanIsFixed(cls: Classes, s: seq<Edge>)
    requires Clean(cls, s)
    ensures Linked(cls, s) == s
    ensures SwappedPairs(cls, s) == {}
  {
    if s != [] {
      var n := |s| - 1;
      var t, e := s[..n], s[n];
      assert s == t + [e];
      CleanIsFixed(cls, t);
      LinkedMore(cls, t, e);
      if e.etype == TESTED_BY {
        forall i | 0 <= i < n ensures !Pairs(cls, t[i], PairOf(e)) { assert t[i] == s[i]; }
      }
      SwappedMore(cls, t, e);
    }
  }

  // ---- the index ---------------------------------------------------------------------------

  lemma {:induction false} ClassifiedByPath(conv: Conventions, nodes: seq<Node>, n: Node)
    requires UniqueIds(nodes) && n in nodes && PathOf(n).Some?
    ensures var cls := ClassesOf(conv, nodes);
            n.id in cls && cls[n.id] == Classify(conv, PathOf(n).value)
  {
    var k := |nodes| - 1;
    if n != nodes[k] {
      ClassifiedByPath(conv, nodes[..k], n);
    }
  }

  predicate SameIndex(a: Node, b: Node) { a.id == b.id && PathOf(a) == PathOf(b) }

  lemma {:induction false} IndexIgnoresTags(conv: Conventions, a: seq<Node>, b: seq<Node>)
    requires |a| == |b| && forall i :: 0 <= i < |a| ==> SameIndex(a[i], b[i])
    ensures ClassesOf(conv, a) == ClassesOf(conv, b) && NodeAt(a) == NodeAt(b)
  {
    hide PathOf;
    if a != [] { IndexIgnoresTags(conv, a[..|a| - 1], b[..|b| - 1]); }
  }

  // ---- pass 2 ------------------------------------------------------------------------------

  lemma {:induction false} SupplementsCover(conv: Conventions, byPath: map<string, string>, covered: set<Pair>,
                                            tests: seq<Node>)
    requires forall t :: t in tests ==> PathOf(t).Some?
    ensures forall t :: t in tests ==> forall e :: e in SupplementFor(conv, byPath, covered, t) ==>
            e in Supplements(conv, byPath, covered, tests)
    ensures forall e :: e in Supplements(conv, byPath, covered, tests) ==>
            exists t :: t in tests && SupplementFor(conv, byPath, covered, t) == [e]
  {
    hide SupplementFor;
    if tests != [] {
      var n := |tests| - 1;
      SupplementsCover(conv, byPath, covered, tests[..n]);
      assert |SupplementFor(conv, byPath, covered, tests[n])| <= 1;
      forall t | t in tests ensures t in tests[..n] || t == tests[n] {}
    }
  }

  /** A supplement pairs a known production file with a test file nothing else pairs. */
  lemma SupplementReads(conv: Conventions, nodes: seq<Node>, covered: set<Pair>, t: Node)
    requires UniqueIds(nodes) && t in TestsOf(conv, nodes)
    ensures forall e :: e in SupplementFor(conv, NodeAt(nodes), covered, t) ==>
              && e.etype == TESTED_BY && e.target == t.id
              && Read(ClassesOf(conv, nodes), e) == Pairing(PairOf(e), false)
              && forall p :: p in covered ==> p.test != e.target
  {
    hide NodeAt, TestsOf, ClassesOf, UniqueIds;
    var byPath := NodeAt(nodes);
    ClassifiedByPath(conv, nodes, t);
    var c := FirstUsable(conv, byPath, conv.candidates(PathOf(t).value));
    if c.Some? {
      var n :| n in nodes && n.id == byPath[c.value] && PathOf(n) == Some(c.value);
      ClassifiedByPath(conv, nodes, n);
    }
  }

  predicate DistinctTargets(s: seq<Edge>) {
    forall i, j :: 0 <= i < j < |s| ==> s[i].target != s[j].target
  }

  lemma {:induction false} SupplementsDistinct(conv: Conventions, byPath: map<string, string>, covered: set<Pair>,
                                               tests: seq<Node>)
    requires UniqueIds(tests) && forall t :: t in tests ==> PathOf(t).Some?
    ensures DistinctTargets(Supplements(conv, byPath, covered, tests))
  {
    hide PathOf, FirstUsable, SupplementFor;
    if tests != [] {
      var n := |tests| - 1;
      SupplementsDistinct(conv, byPath, covered, tests[..n]);
      SupplementsAreForTests(conv, byPath, covered, tests[..n]);
      var s := Supplements(conv, byPath, covered, tests[..n]);
      forall e | e in s ensures e.target != tests[n].id {
        var t :| t in tests[..n] && t.id == e.target;
      }
      var one := SupplementFor(conv, byPath, covered, tests[n]);
      OneSupplement(conv, byPath, covered, tests[n]);
      OneMoreTarget(s, one, tests[n].id);
    }
  }

  lemma OneSupplement(conv: Conventions, byPath: map<string, string>, covered: set<Pair>, t: Node)
    requires PathOf(t).Some?
    ensures var one := SupplementFor(conv, byPath, covered, t);
            |one| <= 1 && forall e :: e in one ==> e.target == t.id
  {
    hide PathOf, FirstUsable;
  }

  lemma OneMoreTarget(s: seq<Edge>, one: seq<Edge>, id: string)
    requires DistinctTargets(s) && |one| <= 1
    requires forall e :: e in s ==> e.target != id
    requires forall e :: e in one ==> e.target == id
    ensures DistinctTargets(s + one)
  {}

  /** The supplements are upright pairings, of tests that nothing else pairs. */
  lemma ExtraIsClean(conv: Conventions, nodes: seq<Node>, edges: seq<Edge>)
    requires UniqueIds(nodes)
    ensures var cls, extra := ClassesOf(conv, nodes), Added(conv, nodes, edges);
            && Clean(cls, extra)
            && forall e :: e in extra ==>
                 e.etype == TESTED_BY && forall p :: p in PairSet(cls, edges) ==> p.test != e.target
  {
    hide SupplementFor, Linked, Supplements, ClassesOf, NodeAt, TestsOf, Read, Slot;
    var cls, extra := ClassesOf(conv, nodes), Added(conv, nodes, edges);
    var covered, tests := PairSet(cls, edges), TestsOf(conv, nodes);
    TestsUnique(conv, nodes);
    SupplementsCover(conv, NodeAt(nodes), covered, tests);
    SupplementsDistinct(conv, NodeAt(nodes), covered, tests);
    forall e | e in extra
      ensures e.etype == TESTED_BY && Read(cls, e) == Pairing(PairOf(e), false)
      ensures forall p :: p in covered ==> p.test != e.target
    {
      var t :| t in tests && SupplementFor(conv, NodeAt(nodes), covered, t) == [e];
      SupplementReads(conv, nodes, covered, t);
      assert e in [e];
    }
  }

  lemma CleanConcat(cls: Classes, s: seq<Edge>, extra: seq<Edge>)
    requires Clean(cls, s) && Clean(cls, extra)
    requires forall e :: e in extra ==> e.etype == TESTED_BY && forall p :: p in PairSet(cls, s) ==> p.test != e.target
    ensures Clean(cls, s + extra)
    ensures PairSet(cls, s + extra) == PairSet(cls, s) + PairsOf(extra)
  {
    hide Read;
    var out := s + extra;
    forall i, j | 0 <= i < |s| && 0 <= j < |extra| && s[i].etype == TESTED_BY
      ensures PairOf(s[i]) != PairOf(extra[j])
    {
      assert extra[j] in extra && Pairs(cls, s[i], PairOf(s[i]));
      assert PairOf(s[i]) in PairSet(cls, s);
    }
    PairsConcat(cls, s, extra);
  }

  lemma PairsConcat(cls: Classes, s: seq<Edge>, extra: seq<Edge>)
    requires Clean(cls, extra) && forall e :: e in extra ==> e.etype == TESTED_BY
    ensures PairSet(cls, s + extra) == PairSet(cls, s) + PairsOf(extra)
  {
    hide Read;
    var out := s + extra;
    assert forall j :: 0 <= j < |extra| ==> extra[j] in extra;
    forall p ensures p in PairSet(cls, out) <==> p in PairSet(cls, s) || p in PairsOf(extra) {
      if p in PairSet(cls, s) {
        var i :| 0 <= i < |s| && Pairs(cls, s[i], p);
        assert Pairs(cls, out[i], p);
      }
      if p in PairsOf(extra) {
        var i :| 0 <= i < |extra| && PairOf(extra[i]) == p;
        assert Pairs(cls, out[|s| + i], p);
      }
    }
  }

  lemma PairsAfterPassOne(cls: Classes, s: seq<Edge>)
    ensures PairSet(cls, Linked(cls, s)) == PairSet(cls, s)
  {
    hide Linked, Slot, Survivor;
    var out := Linked(cls, s);
    forall p ensures p in PairSet(cls, out) <==> p in PairSet(cls, s) {
      if Occurs(cls, s, p) {
        SlotHoldsSurvivor(cls, s, p);
        UprightReads(cls, s[Survivor(cls, s, p)], p);
        assert Pairs(cls, out[Slot(cls, s, p)], p);
      }
      if Occurs(cls, out, p) {
        var i :| 0 <= i < |out| && Pairs(cls, out[i], p);
        WrittenInItsSlot(cls, s, i);
      }
    }
  }

  /** The graph the linker leaves is clean, and its pairs are the covered ones. */
  lemma ResultIsClean(conv: Conventions, nodes: seq<Node>, edges: seq<Edge>)
    requires UniqueIds(nodes)
    ensures var cls, out := ClassesOf(conv, nodes), Link(conv, nodes, edges).edges;
            && Clean(cls, out)
            && PairSet(cls, out) == PairSet(cls, edges) + PairsOf(Added(conv, nodes, edges))
  {
    hide Clean, Added, Linked, ClassesOf;
    var cls := ClassesOf(conv, nodes);
    LinkedIsClean(cls, edges);
    PairsAfterPassOne(cls, edges);
    ExtraIsClean(conv, nodes, edges);
    CleanConcat(cls, Linked(cls, edges), Added(conv, nodes, edges));
  }

  // ---- main results ------------------------------------------------------------------------

  /** Conservation: no edge but a `tested_by` edge is added, removed, moved or changed; the counters
      account for the `tested_by` edges; and every one of those ends upright, one for each pair. */
  lemma LinkConserves(conv: Conventions, nodes: seq<Node>, edges: seq<Edge>)
    requires UniqueIds(nodes)
    ensures var r, cls := Link(conv, nodes, edges), ClassesOf(conv, nodes);
            && |r.edges| == |edges| + r.added - r.dropped
            && Select(r.edges, false) == Select(edges, false)
            && |Select(r.edges, true)| == |Select(edges, true)| + r.added - r.dropped
            && Clean(cls, r.edges)
            && (forall p :: Occurs(cls, edges, p) ==> Occurs(cls, r.edges, p))
  {
    hide Clean, Added, Linked, ClassesOf;
    var cls, r := ClassesOf(conv, nodes), Link(conv, nodes, edges);
    ResultIsClean(conv, nodes, edges);
    PassOneTheorem(cls, edges);
    ExtraIsClean(conv, nodes, edges);
    SelectConcat(Linked(cls, edges), Added(conv, nodes, edges), false);
    AllTested(Added(conv, nodes, edges));
    SelectSizes(edges);
    SelectSizes(r.edges);
    forall p | Occurs(cls, edges, p) ensures Occurs(cls, r.edges, p) { assert p in PairSet(cls, r.edges); }
  }

  lemma {:induction false} AllTested(s: seq<Edge>)
    requires forall e :: e in s ==> e.etype == TESTED_BY
    ensures Select(s, false) == []
  {
    if s != [] { AllTested(s[..|s| - 1]); }
  }

  /** What pass 2 found for a test file, or did not find, leaves nothing to find again. */
  lemma SupplementOnce(conv: Conventions, byPath: map<string, string>, covered: set<Pair>, now: set<Pair>, t: Node,
                       again: Node)
    requires PathOf(t).Some? && SameIndex(t, again) && covered <= now
    requires forall e :: e in SupplementFor(conv, byPath, covered, t) ==> PairOf(e) in now
    ensures SupplementFor(conv, byPath, now, again) == []
  {
    hide PathOf, FirstUsable;
    var before := SupplementFor(conv, byPath, covered, t);
    if before != [] {
      assert before[0] in before;
      assert PairOf(before[0]).test == again.id;
    }
  }

  lemma NoMoreSupplements(conv: Conventions, nodes: seq<Node>, tagged: seq<Node>, covered: set<Pair>, now: set<Pair>)
    requires |nodes| == |tagged| && forall i :: 0 <= i < |nodes| ==> SameIndex(nodes[i], tagged[i])
    requires now == covered + PairsOf(Supplements(conv, NodeAt(nodes), covered, TestsOf(conv, nodes)))
    ensures Supplements(conv, NodeAt(nodes), now, TestsOf(conv, tagged)) == []
  {
    hide PathOf, FirstUsable, NodeAt, Supplements, TestsOf, SupplementFor;
    var byPath, tests, again := NodeAt(nodes), TestsOf(conv, nodes), TestsOf(conv, tagged);
    SupplementsCover(conv, byPath, covered, tests);
    forall t | t in again ensures SupplementFor(conv, byPath, now, t) == [] {
      var i :| 0 <= i < |tagged| && tagged[i] == t;
      assert nodes[i] in tests;
      SupplementOnce(conv, byPath, covered, now, nodes[i], t);
    }
    SupplementsEmpty(conv, byPath, now, again);
  }

  lemma {:induction false} SupplementsEmpty(conv: Conventions, byPath: map<string, string>, covered: set<Pair>,
                                            tests: seq<Node>)
    requires forall t :: t in tests ==> PathOf(t).Some?
    requires forall t :: t in tests ==> SupplementFor(conv, byPath, covered, t) == []
    ensures Supplements(conv, byPath, covered, tests) == []
  {
    if tests != [] { SupplementsEmpty(conv, byPath, covered, tests[..|tests| - 1]); }
  }

  /** A node gains the tag exactly when it is the source of a `tested_by` edge of the result, and
      nothing else about any node changes. */
  lemma TaggedWhenTested(conv: Conventions, nodes: seq<Node>, edges: seq<Edge>)
    requires UniqueIds(nodes)
    ensures var r := Link(conv, nodes, edges);
            |r.nodes| == |nodes| &&
            forall i :: 0 <= i < |nodes| ==>
              && r.nodes[i].(tags := nodes[i].tags) == nodes[i]
              && (HasTag(r.nodes[i]) <==>
                    HasTag(nodes[i]) || exists e :: e in r.edges && e.etype == TESTED_BY && e.source == nodes[i].id)
              && (HasTag(nodes[i]) ==> r.nodes[i] == nodes[i])
  {
    hide Linked, ClassesOf, PathOf, HasTag, Added;
    var r, cls := Link(conv, nodes, edges), ClassesOf(conv, nodes);
    ResultIsClean(conv, nodes, edges);
    SourcesOfClean(cls, r.edges);
  }

  lemma SourcesOfClean(cls: Classes, s: seq<Edge>)
    requires Clean(cls, s)
    ensures forall id :: id in Sources(PairSet(cls, s)) <==>
            exists e :: e in s && e.etype == TESTED_BY && e.source == id
  {
    forall e | e in s && e.etype == TESTED_BY ensures PairOf(e) in PairSet(cls, s) {
      var i :| 0 <= i < |s| && s[i] == e;
      assert Pairs(cls, s[i], PairOf(e));
    }
    forall p | p in PairSet(cls, s) ensures exists e :: e in s && e.etype == TESTED_BY && e.source == p.production {
      var i :| 0 <= i < |s| && Pairs(cls, s[i], p);
      assert s[i] in s;
    }
  }

  /** Linking a linked graph changes no edge and no tag, and counts nothing. */
  lemma LinkIdempotent(conv: Conventions, nodes: seq<Node>, edges: seq<Edge>)
    requires UniqueIds(nodes)
    ensures var r := Link(conv, nodes, edges);
            UniqueIds(r.nodes) && Link(conv, r.nodes, r.edges) == Outcome(r.nodes, r.edges, 0, 0, 0, 0)
  {
    hide Clean, Linked, ClassesOf, TestsOf, NodeAt, PathOf, HasTag, Supplements;
    var r := Link(conv, nodes, edges);
    var cls := ClassesOf(conv, nodes);
    var covered := PairSet(cls, edges);
    var now := covered + PairsOf(Added(conv, nodes, edges));
    forall i | 0 <= i < |nodes| ensures SameIndex(nodes[i], r.nodes[i]) {}
    IndexIgnoresTags(conv, nodes, r.nodes);
    ResultIsClean(conv, nodes, edges);
    CleanIsFixed(cls, r.edges);
    NoMoreSupplements(conv, nodes, r.nodes, covered, now);
    assert Added(conv, r.nodes, r.edges) == [];
    assert PairSet(cls, r.edges) + PairsOf([]) == now;
    var sources := Sources(now);
    assert TagSources(r.nodes, sources) == r.nodes;
    assert NewlyTagged(r.nodes, sources) == {};
  }
}
