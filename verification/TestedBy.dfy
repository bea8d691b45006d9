// `tested_by` edges: how pass 1 of the linker reads them, and what its output is in terms of its
// whole input, without reference to the order of work.
module TestedBy {

  /** A weight as `_num` coerces it: a float (the infinities read as reals beyond every finite one),
      or the NaN that no comparison ranks. */
  datatype Weight = NaN | Num(value: real)

  predicate Heavier(a: Weight, b: Weight) {
    a.Num? && b.Num? && a.value > b.value
  }

  datatype Edge = Edge(source: string, target: string, etype: string, direction: string, weight: Weight,
                       description: string)

  datatype Class = Test | Production

  /** Which known file nodes are tests and which are production files. */
  type Classes = map<string, Class>

  datatype Pair = Pair(production: string, test: string)

  /** How pass 1 reads an edge: not its business, a pairing (possibly upside down), or beyond repair. */
  datatype Reading = Other | Pairing(pair: Pair, inverted: bool) | Broken

  const TESTED_BY: string := "tested_by"

  function Read(cls: Classes, e: Edge): Reading {
    if e.etype != TESTED_BY then Other
    else if e.source !in cls || e.target !in cls then Broken
    else if cls[e.source] == Production && cls[e.target] == Test then Pairing(Pair(e.source, e.target), false)
    else if cls[e.source] == Test && cls[e.target] == Production then Pairing(Pair(e.target, e.source), true)
    else Broken
  }

  /** `_swap_tested_by_in_place`. */
  function Swap(e: Edge): Edge {
    e.(source := e.target, target := e.source, direction := "forward",
       description := if e.description == "" then "Direction corrected (was test → production)"
                      else e.description + " [direction corrected]")
  }

  predicate Inverted(cls: Classes, e: Edge) {
    var r := Read(cls, e);
    r.Pairing? && r.inverted
  }

  /** The edge as it is kept: production first. */
  function Canonical(cls: Classes, e: Edge): Edge {
    if Inverted(cls, e) then Swap(e) else e
  }

  predicate Pairs(cls: Classes, e: Edge, p: Pair) {
    var r := Read(cls, e);
    r.Pairing? && r.pair == p
  }

  predicate Occurs(cls: Classes, s: seq<Edge>, p: Pair) {
    exists i :: 0 <= i < |s| && Pairs(cls, s[i], p)
  }

  predicate FirstOf(cls: Classes, s: seq<Edge>, p: Pair, i: nat) {
    i < |s| && Pairs(cls, s[i], p) && forall k :: 0 <= k < i ==> !Pairs(cls, s[k], p)
  }

  function First(cls: Classes, s: seq<Edge>, p: Pair): (i: nat)
    requires Occurs(cls, s, p)
    ensures FirstOf(cls, s, p, i)
  {
    var n := |s| - 1;
    if Occurs(cls, s[..n], p) then
      assert FirstOf(cls, s[..n], p, First(cls, s[..n], p));
      First(cls, s[..n], p)
    else
      assert forall k :: 0 <= k < n ==> s[..n][k] == s[k];
      n
  }

  /** The edge kept for a pair: the earliest of maximal weight. A NaN neither outranks nor is outranked,
      so it is kept exactly when it comes first. */
  ghost predicate Survives(cls: Classes, s: seq<Edge>, p: Pair, j: nat) {
    && j < |s| && Pairs(cls, s[j], p)
    && (s[j].weight.NaN? ==> FirstOf(cls, s, p, j))
    && (s[j].weight.Num? ==>
          && (forall k: nat :: FirstOf(cls, s, p, k) ==> s[k].weight.Num?)
          && (forall k :: 0 <= k < |s| && Pairs(cls, s[k], p) && s[k].weight.Num? ==>
                s[k].weight.value <= s[j].weight.value)
          && (forall k :: 0 <= k < j && Pairs(cls, s[k], p) && s[k].weight.Num? ==>
                s[k].weight.value < s[j].weight.value))
  }

  function Survivor(cls: Classes, s: seq<Edge>, p: Pair): (j: nat)
    requires Occurs(cls, s, p)
    ensures j < |s| && Pairs(cls, s[j], p)
  {
    var n := |s| - 1;
    if !Occurs(cls, s[..n], p) then
      assert forall k :: 0 <= k < n ==> s[..n][k] == s[k];
      n
    else
      var j := Survivor(cls, s[..n], p);
      if Pairs(cls, s[n], p) && Heavier(s[n].weight, s[j].weight) then n else j
  }

  /** What pass 1 emits for the edge at position `i`: the pair's survivor, at the pair's first occurrence. */
  function Emit(cls: Classes, s: seq<Edge>, i: nat): (r: seq<Edge>)
    requires i < |s|
    ensures |r| <= 1
  {
    match Read(cls, s[i])
    case Other => [s[i]]
    case Broken => []
    case Pairing(p, _) =>
      assert Pairs(cls, s[i], p);
      if First(cls, s, p) == i then [Canonical(cls, s[Survivor(cls, s, p)])] else []
  }

  function LinkedUpTo(cls: Classes, s: seq<Edge>, n: nat): (r: seq<Edge>)
    requires n <= |s|
    ensures |r| <= n
  {
    if n == 0 then [] else LinkedUpTo(cls, s, n - 1) + Emit(cls, s, n - 1)
  }

  /** The edges after pass 1. */
  function Linked(cls: Classes, s: seq<Edge>): (r: seq<Edge>)
    ensures |r| <= |s|
  {
    LinkedUpTo(cls, s, |s|)
  }

  /** Where a pair's edge sits in the output. */
  function Slot(cls: Classes, s: seq<Edge>, p: Pair): nat
    requires Occurs(cls, s, p)
  {
    |LinkedUpTo(cls, s, First(cls, s, p))|
  }

  // ---- the survivor -----------------------------------------------------------------

  lemma OccursMore(cls: Classes, t: seq<Edge>, e: Edge, p: Pair)
    ensures Occurs(cls, t + [e], p) <==> Occurs(cls, t, p) || Pairs(cls, e, p)
    ensures Occurs(cls, t, p) ==> First(cls, t + [e], p) == First(cls, t, p)
    ensures !Occurs(cls, t, p) && Pairs(cls, e, p) ==> First(cls, t + [e], p) == |t|
  {
    var s := t + [e];
    assert s[..|t|] == t && s[|t|] == e;
    if Occurs(cls, t, p) {
      var i :| 0 <= i < |t| && Pairs(cls, t[i], p);
      assert Pairs(cls, s[i], p);
    }
    if Pairs(cls, e, p) { assert Pairs(cls, s[|t|], p); }
  }

  lemma SurvivorMore(cls: Classes, t: seq<Edge>, e: Edge, p: Pair)
    requires Occurs(cls, t + [e], p)
    ensures !Occurs(cls, t, p) ==> Survivor(cls, t + [e], p) == |t|
    ensures Occurs(cls, t, p) ==>
              Survivor(cls, t + [e], p) ==
              if Pairs(cls, e, p) && Heavier(e.weight, t[Survivor(cls, t, p)].weight) then |t| else Survivor(cls, t, p)
  {
    assert (t + [e])[..|t|] == t;
  }

  lemma FirstUnique(cls: Classes, s: seq<Edge>, p: Pair)
    requires Occurs(cls, s, p)
    ensures forall k: nat :: FirstOf(cls, s, p, k) ==> k == First(cls, s, p)
  {
    assert FirstOf(cls, s, p, First(cls, s, p));
  }

  lemma {:induction false} SurvivorSurvives(cls: Classes, s: seq<Edge>, p: Pair)
    requires Occurs(cls, s, p)
    ensures Survives(cls, s, p, Survivor(cls, s, p))
  {
    var n := |s| - 1;
    var t := s[..n];
    assert s == t + [s[n]];
    SurvivorMore(cls, t, s[n], p);
    OccursMore(cls, t, s[n], p);
    assert forall k :: 0 <= k < n ==> s[k] == t[k];
    FirstUnique(cls, s, p);
    if Occurs(cls, t, p) {
      SurvivorSurvives(cls, t, p);
      FirstUnique(cls, t, p);
      assert FirstOf(cls, t, p, First(cls, t, p));
    }
  }

  /** "The earliest of maximal weight" determines the edge. */
  lemma SurvivorUnique(cls: Classes, s: seq<Edge>, p: Pair, j: nat)
    requires Survives(cls, s, p, j)
    ensures Occurs(cls, s, p) && j == Survivor(cls, s, p)
  {
    SurvivorSurvives(cls, s, p);
    var k := Survivor(cls, s, p);
    assert FirstOf(cls, s, p, First(cls, s, p));
  }

  // ---- one more edge ------------------------------------------------------------------

  lemma EmitMore(cls: Classes, t: seq<Edge>, e: Edge, i: nat)
    requires i < |t|
    ensures var r := Read(cls, t[i]);
            Emit(cls, t + [e], i) ==
            if r.Pairing? && Pairs(cls, e, r.pair) && Occurs(cls, t, r.pair) && First(cls, t, r.pair) == i
               && Heavier(e.weight, t[Survivor(cls, t, r.pair)].weight)
            then [Canonical(cls, e)] else Emit(cls, t, i)
  {
    var s := t + [e];
    assert s[i] == t[i];
    var r := Read(cls, t[i]);
    if r.Pairing? {
      assert Pairs(cls, t[i], r.pair) && Pairs(cls, s[i], r.pair);
      OccursMore(cls, t, e, r.pair);
      SurvivorMore(cls, t, e, r.pair);
    }
  }

  predicate Replaces(cls: Classes, t: seq<Edge>, e: Edge) {
    var r := Read(cls, e);
    r.Pairing? && Occurs(cls, t, r.pair) && Heavier(e.weight, t[Survivor(cls, t, r.pair)].weight)
  }

  lemma {:induction false} UntouchedPrefix(cls: Classes, t: seq<Edge>, e: Edge, n: nat)
    requires n <= |t|
    requires Replaces(cls, t, e) ==> n <= First(cls, t, Read(cls, e).pair)
    ensures LinkedUpTo(cls, t + [e], n) == LinkedUpTo(cls, t, n)
  {
    hide Survivor, First, Occurs, Emit, Heavier;
    if n > 0 {
      UntouchedPrefix(cls, t, e, n - 1);
      EmitMore(cls, t, e, n - 1);
      assert Emit(cls, t + [e], n - 1) == Emit(cls, t, n - 1);
    }
  }

  lemma EmitAtFirst(cls: Classes, s: seq<Edge>, p: Pair)
    requires Occurs(cls, s, p)
    ensures var i := First(cls, s, p);
            && i < |s|
            && Emit(cls, s, i) == [Canonical(cls, s[Survivor(cls, s, p)])]
            && LinkedUpTo(cls, s, i + 1) == LinkedUpTo(cls, s, i) + [Canonical(cls, s[Survivor(cls, s, p)])]
  {
    hide Survivor, Canonical, Occurs;
    assert FirstOf(cls, s, p, First(cls, s, p));
  }

  lemma {:induction false} ReplacedPrefix(cls: Classes, t: seq<Edge>, e: Edge, n: nat)
    requires n <= |t| && Replaces(cls, t, e)
    requires First(cls, t, Read(cls, e).pair) < n
    ensures var p := Read(cls, e).pair;
            && Slot(cls, t, p) < |LinkedUpTo(cls, t, n)|
            && LinkedUpTo(cls, t + [e], n) == LinkedUpTo(cls, t, n)[Slot(cls, t, p) := Canonical(cls, e)]
  {
    hide Survivor, Occurs, Canonical, Heavier, Emit;
    var p := Read(cls, e).pair;
    EmitMore(cls, t, e, n - 1);
    if First(cls, t, p) == n - 1 {
      UntouchedPrefix(cls, t, e, n - 1);
      EmitAtFirst(cls, t, p);
      assert FirstOf(cls, t, p, n - 1);
      assert Emit(cls, t + [e], n - 1) == [Canonical(cls, e)];
    } else {
      ReplacedPrefix(cls, t, e, n - 1);
      assert Emit(cls, t + [e], n - 1) == Emit(cls, t, n - 1);
    }
  }

  /** Pass 1 on one more edge: append, replace one slot, or drop. */
  lemma LinkedMore(cls: Classes, t: seq<Edge>, e: Edge)
    ensures var r := Read(cls, e);
            var out := Linked(cls, t);
            && (r.Other? ==> Linked(cls, t + [e]) == out + [e])
            && (r.Broken? ==> Linked(cls, t + [e]) == out)
            && (r.Pairing? && !Occurs(cls, t, r.pair) ==> Linked(cls, t + [e]) == out + [Canonical(cls, e)])
            && (Replaces(cls, t, e) ==>
                  Slot(cls, t, r.pair) < |out|
                      && Linked(cls, t + [e]) == out[Slot(cls, t, r.pair) := Canonical(cls, e)])
            && (r.Pairing? && Occurs(cls, t, r.pair) && !Replaces(cls, t, e) ==> Linked(cls, t + [e]) == out)
  {
    var s, n, r := t + [e], |t|, Read(cls, e);
    assert s[n] == e;
    if Replaces(cls, t, e) {
      OccursMore(cls, t, e, r.pair);
      assert FirstOf(cls, t, r.pair, First(cls, t, r.pair));
      ReplacedPrefix(cls, t, e, n);
    } else {
      UntouchedPrefix(cls, t, e, n);
    }
    assert Linked(cls, s) == LinkedUpTo(cls, s, n) + Emit(cls, s, n);
    if r.Pairing? {
      assert Pairs(cls, e, r.pair) && Pairs(cls, s[n], r.pair);
      OccursMore(cls, t, e, r.pair);
      SurvivorMore(cls, t, e, r.pair);
    }
  }

  lemma LengthMore(cls: Classes, t: seq<Edge>, e: Edge, n: nat)
    requires n <= |t|
    ensures |LinkedUpTo(cls, t + [e], n)| == |LinkedUpTo(cls, t, n)|
  {
    hide Survivor, Occurs, Canonical, Heavier, Emit;
    if Replaces(cls, t, e) && First(cls, t, Read(cls, e).pair) < n {
      ReplacedPrefix(cls, t, e, n);
    } else {
      UntouchedPrefix(cls, t, e, n);
    }
  }

  lemma SlotMore(cls: Classes, t: seq<Edge>, e: Edge, p: Pair)
    requires Occurs(cls, t + [e], p)
    ensures Slot(cls, t + [e], p) == if Occurs(cls, t, p) then Slot(cls, t, p) else |Linked(cls, t)|
  {
    OccursMore(cls, t, e, p);
    if Occurs(cls, t, p) {
      LengthMore(cls, t, e, First(cls, t, p));
    } else {
      LengthMore(cls, t, e, |t|);
    }
  }

  lemma {:induction false} LinkedUpToGrows(cls: Classes, s: seq<Edge>, m: nat, n: nat)
    requires m <= n <= |s|
    ensures |LinkedUpTo(cls, s, m)| <= |LinkedUpTo(cls, s, n)|
    ensures LinkedUpTo(cls, s, n)[..|LinkedUpTo(cls, s, m)|] == LinkedUpTo(cls, s, m)
  {
    if m < n { LinkedUpToGrows(cls, s, m, n - 1); }
  }

  /** A pair's slot holds its survivor. */
  lemma SlotHoldsSurvivor(cls: Classes, s: seq<Edge>, p: Pair)
    requires Occurs(cls, s, p)
    ensures Slot(cls, s, p) < |Linked(cls, s)|
    ensures Linked(cls, s)[Slot(cls, s, p)] == Canonical(cls, s[Survivor(cls, s, p)])
  {
    hide Emit, Survivor, Canonical, Occurs;
    var i := First(cls, s, p);
    EmitAtFirst(cls, s, p);
    LinkedUpToGrows(cls, s, i + 1, |s|);
    var out := LinkedUpTo(cls, s, i + 1);
    assert Linked(cls, s)[|out| - 1] == Linked(cls, s)[..|out|][|out| - 1];
  }
}
