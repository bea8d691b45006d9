// `asJsonValue`: the gate every value passes before it is signed or canonicalized.
// JavaScript values live in a heap of objects that may be shared or cyclic.
module JsonGate {
  import opened Wrappers
  import opened Texts
  import opened JsonValue

  type Ref = nat

  /** `Opaque` stands for functions, symbols and big integers. */
  datatype Value =
    | NullValue
    | Undefined
    | Boolean(b: bool)
    | Numeric(num: Number)
    | Text(s: Text)
    | Reference(ref: Ref)
    | Opaque

  datatype Entry = Entry(key: Text, value: Value)

  /** A slot of an array: `map` does not visit an empty one. */
  datatype Slot = Empty | Filled(value: Value)

  /** `Exotic` is an object whose prototype is neither Object.prototype, null nor an array's: a class instance. */
  datatype Object = Plain(entries: seq<Entry>) | List(items: seq<Slot>) | Exotic(entries: seq<Entry>)

  type Heap = map<Ref, Object>

  predicate DistinctEntries(es: seq<Entry>) {
    forall i, j :: 0 <= i < j < |es| ==> es[i].key != es[j].key
  }

  /** As in JavaScript, no object has two entries of one key. */
  ghost predicate OneEntryPerKey(h: Heap) {
    forall r :: r in h && h[r].Plain? ==> DistinctEntries(h[r].entries)
  }

  type JsHeap = h: Heap | OneEntryPerKey(h) witness map[]

  function Leaf(v: Value): Option<Json>
    requires !v.Reference?
  {
    match v
    case NullValue => Some(Null)
    case Boolean(b) => Some(Bool(b))
    case Text(s) => Some(Str(s))
    case Numeric(n) => if Safe(n) then Some(Num(n)) else None
    case Undefined => None
    case Opaque => None
  }

  // ---- the meaning: the tree a value unfolds to ----------------------------

  /** The JSON tree of a value, looking at most `depth` objects deep. */
  function Unfold(h: Heap, v: Value, depth: nat): Option<Json>
    decreases depth, 0
  {
    if !v.Reference? then Leaf(v)
    else if depth == 0 || v.ref !in h then None
    else match h[v.ref]
      case Exotic(_) => None
      case List(items) =>
        var xs := UnfoldItems(h, items, depth - 1);
        if xs.None? then None else Some(Arr(xs.value))
      case Plain(entries) =>
        var ms := UnfoldEntries(h, entries, depth - 1);
        if ms.None? then None else Some(Obj(ms.value))
  }

  function UnfoldItems(h: Heap, items: seq<Slot>, depth: nat): Option<seq<Json>>
    decreases depth, 1, |items|
  {
    if items == [] then Some([])
    else
      var x := if items[0].Empty? then Some(Hole) else Unfold(h, items[0].value, depth);
      var xs := UnfoldItems(h, items[1..], depth);
      if x.Some? && xs.Some? then Some([x.value] + xs.value) else None
  }

  function UnfoldEntries(h: Heap, es: seq<Entry>, depth: nat): Option<seq<Member>>
    decreases depth, 1, |es|
  {
    if es == [] then Some([])
    else
      var x, xs := Unfold(h, es[0].value, depth), UnfoldEntries(h, es[1..], depth);
      if x.Some? && xs.Some? then Some([Member(es[0].key, x.value)] + xs.value) else None
  }

  // ---- what the code does: a traversal that carries the objects being visited ----

  function Gate(h: Heap, v: Value, seen: set<Ref>): Option<Json>
    decreases |h.Keys - seen|, 0
  {
    if !v.Reference? then Leaf(v)
    else if v.ref !in h || h[v.ref].Exotic? || v.ref in seen then None
    else
      Shrinks(h, v.ref, seen);
      match h[v.ref]
      case List(items) =>
        var xs := GateItems(h, items, seen + {v.ref});
        if xs.None? then None else Some(Arr(xs.value))
      case Plain(entries) =>
        var ms := GateEntries(h, entries, seen + {v.ref});
        if ms.None? then None else Some(Obj(ms.value))
  }

  function GateItems(h: Heap, items: seq<Slot>, seen: set<Ref>): Option<seq<Json>>
    decreases |h.Keys - seen|, 1, |items|
  {
    if items == [] then Some([])
    else
      var x := if items[0].Empty? then Some(Hole) else Gate(h, items[0].value, seen);
      var xs := GateItems(h, items[1..], seen);
      if x.Some? && xs.Some? then Some([x.value] + xs.value) else None
  }

  function GateEntries(h: Heap, es: seq<Entry>, seen: set<Ref>): Option<seq<Member>>
    decreases |h.Keys - seen|, 1, |es|
  {
    if es == [] then Some([])
    else
      var x, xs := Gate(h, es[0].value, seen), GateEntries(h, es[1..], seen);
      if x.Some? && xs.Some? then Some([Member(es[0].key, x.value)] + xs.value) else None
  }

  lemma Shrinks(h: Heap, r: Ref, seen: set<Ref>)
    requires r in h && r !in seen
    ensures |h.Keys - (seen + {r})| < |h.Keys - seen|
  {
    assert h.Keys - (seen + {r}) == (h.Keys - seen) - {r};
  }

  // ---- the recursion over one shared, mutated set of visited objects -------

  class SeenSet {
    var refs: set<Ref>

    constructor ()
      ensures refs == {}
    {
      refs := {};
    }
  }

  /** The set of visited objects is left as it was found, whether the value is accepted or refused. */
  method AsJsonValue(h: Heap, v: Value, seen: SeenSet) returns (r: Option<Json>)
    modifies seen
    ensures seen.refs == old(seen.refs)
    ensures r == Gate(h, v, old(seen.refs))
    decreases |h.Keys - seen.refs|, 0
  {
    if !v.Reference? { return Leaf(v); }
    if v.ref !in h || h[v.ref].Exotic? || v.ref in seen.refs { return None; }
    ghost var before := seen.refs;
    Shrinks(h, v.ref, seen.refs);
    seen.refs := seen.refs + {v.ref};
    if h[v.ref].List? {
      var items := h[v.ref].items;
      var output: seq<Json> := [];
      var i := 0;
      ghost var whole := GateItems(h, items, seen.refs);
      assert items[i..] == items;
      PrependNone(whole);
      while i < |items|
        invariant 0 <= i <= |items| && seen.refs == before + {v.ref}
        invariant whole == Prepend(output, GateItems(h, items[i..], seen.refs))
      {
        var x: Option<Json> := Some(Hole);
        if items[i].Filled? { x := AsJsonValue(h, items[i].value, seen); }
        assert items[i..][0] == items[i] && items[i..][1..] == items[i + 1..];
        if x.None? {
          seen.refs := seen.refs - {v.ref};
          assert seen.refs == before;
          return None;
        }
        PrependMore(output, x.value, GateItems(h, items[i + 1..], seen.refs));
        output := output + [x.value];
        i := i + 1;
      }
      assert items[i..] == [] && output + [] == output;
      r := Some(Arr(output));
    } else {
      var entries := h[v.ref].entries;
      var output: seq<Member> := [];
      var i := 0;
      ghost var whole := GateEntries(h, entries, seen.refs);
      assert entries[i..] == entries;
      PrependNone(whole);
      while i < |entries|
        invariant 0 <= i <= |entries| && seen.refs == before + {v.ref}
        invariant whole == Prepend(output, GateEntries(h, entries[i..], seen.refs))
      {
        var x := AsJsonValue(h, entries[i].value, seen);
        assert entries[i..][0] == entries[i] && entries[i..][1..] == entries[i + 1..];
        if x.None? {
          seen.refs := seen.refs - {v.ref};
          assert seen.refs == before;
          return None;
        }
        PrependMore(output, Member(entries[i].key, x.value), GateEntries(h, entries[i + 1..], seen.refs));
        output := output + [Member(entries[i].key, x.value)];
        i := i + 1;
      }
      assert entries[i..] == [] && output + [] == output;
      r := Some(Obj(output));
    }
    seen.refs := seen.refs - {v.ref};
    assert seen.refs == before;
  }

  ghost function Prepend<T>(done: seq<T>, rest: Option<seq<T>>): Option<seq<T>> {
    if rest.None? then None else Some(done + rest.value)
  }

  lemma PrependNone<T>(rest: Option<seq<T>>)
    ensures Prepend([], rest) == rest
  {
    if rest.Some? { assert [] + rest.value == rest.value; }
  }

  lemma PrependMore<T>(done: seq<T>, x: T, rest: Option<seq<T>>)
    ensures Prepend(done, if rest.None? then None else Some([x] + rest.value)) == Prepend(done + [x], rest)
  {
    if rest.Some? { assert done + ([x] + rest.value) == (done + [x]) + rest.value; }
  }

  // ---- the traversal accepts exactly the values with a finite tree -----------

  lemma {:induction false} UnfoldDeeper(h: Heap, v: Value, m: nat, n: nat)
    requires m <= n && Unfold(h, v, m).Some?
    ensures Unfold(h, v, n) == Unfold(h, v, m)
    decreases m, 0
  {
    if v.Reference? {
      match h[v.ref]
      case List(items) => UnfoldItemsDeeper(h, items, m - 1, n - 1);
      case Plain(entries) => UnfoldEntriesDeeper(h, entries, m - 1, n - 1);
    }
  }

  lemma {:induction false} UnfoldItemsDeeper(h: Heap, items: seq<Slot>, m: nat, n: nat)
    requires m <= n && UnfoldItems(h, items, m).Some?
    ensures UnfoldItems(h, items, n) == UnfoldItems(h, items, m)
    decreases m, 1, |items|
  {
    if items != [] {
      if items[0].Filled? { UnfoldDeeper(h, items[0].value, m, n); }
      UnfoldItemsDeeper(h, items[1..], m, n);
    }
  }

  lemma {:induction false} UnfoldEntriesDeeper(h: Heap, es: seq<Entry>, m: nat, n: nat)
    requires m <= n && UnfoldEntries(h, es, m).Some?
    ensures UnfoldEntries(h, es, n) == UnfoldEntries(h, es, m)
    decreases m, 1, |es|
  {
    if es != [] {
      UnfoldDeeper(h, es[0].value, m, n);
      UnfoldEntriesDeeper(h, es[1..], m, n);
    }
  }

  /** No visited object has a tree within `depth`: the value below it cannot run into it again. */
  ghost predicate TooDeep(h: Heap, seen: set<Ref>, depth: nat) {
    forall s :: s in seen ==> Unfold(h, Reference(s), depth).None?
  }

  lemma TooDeepShallower(h: Heap, seen: set<Ref>, m: nat, n: nat)
    requires m <= n && TooDeep(h, seen, n)
    ensures TooDeep(h, seen, m)
  {
    forall s | s in seen ensures Unfold(h, Reference(s), m).None? {
      if Unfold(h, Reference(s), m).Some? { UnfoldDeeper(h, Reference(s), m, n); }
    }
  }

  lemma {:induction false} LeastDepth(h: Heap, v: Value, depth: nat) returns (n: nat)
    requires Unfold(h, v, depth).Some?
    ensures n <= depth && Unfold(h, v, n) == Unfold(h, v, depth)
    ensures n > 0 ==> Unfold(h, v, n - 1).None?
  {
    if depth > 0 && Unfold(h, v, depth - 1).Some? {
      n := LeastDepth(h, v, depth - 1);
      UnfoldDeeper(h, v, n, depth);
    } else {
      n := depth;
    }
  }

  lemma {:induction false} GateFindsTree(h: Heap, v: Value, seen: set<Ref>, depth: nat)
    requires Unfold(h, v, depth).Some? && TooDeep(h, seen, depth)
    ensures Gate(h, v, seen) == Unfold(h, v, depth)
    decreases depth, 0
  {
    if v.Reference? {
      var n := LeastDepth(h, v, depth);
      assert n > 0;
      TooDeepShallower(h, seen, n - 1, depth);
      assert TooDeep(h, seen + {v.ref}, n - 1);
      Shrinks(h, v.ref, seen);
      match h[v.ref]
      case List(items) => GateFindsItems(h, items, seen + {v.ref}, n - 1);
      case Plain(entries) => GateFindsEntries(h, entries, seen + {v.ref}, n - 1);
    }
  }

  lemma {:induction false} GateFindsItems(h: Heap, items: seq<Slot>, seen: set<Ref>, depth: nat)
    requires UnfoldItems(h, items, depth).Some? && TooDeep(h, seen, depth)
    ensures GateItems(h, items, seen) == UnfoldItems(h, items, depth)
    decreases depth, 1, |items|
  {
    if items != [] {
      if items[0].Filled? { GateFindsTree(h, items[0].value, seen, depth); }
      GateFindsItems(h, items[1..], seen, depth);
    }
  }

  lemma {:induction false} GateFindsEntries(h: Heap, es: seq<Entry>, seen: set<Ref>, depth: nat)
    requires UnfoldEntries(h, es, depth).Some? && TooDeep(h, seen, depth)
    ensures GateEntries(h, es, seen) == UnfoldEntries(h, es, depth)
    decreases depth, 1, |es|
  {
    if es != [] {
      GateFindsTree(h, es[0].value, seen, depth);
      GateFindsEntries(h, es[1..], seen, depth);
    }
  }

  lemma {:induction false} GateGivesTree(h: Heap, v: Value, seen: set<Ref>)
    requires Gate(h, v, seen).Some?
    ensures Unfold(h, v, |h.Keys - seen|) == Gate(h, v, seen)
    decreases |h.Keys - seen|, 0
  {
    if v.Reference? {
      Shrinks(h, v.ref, seen);
      var less := |h.Keys - (seen + {v.ref})|;
      match h[v.ref]
      case List(items) =>
        GateGivesItems(h, items, seen + {v.ref});
        UnfoldItemsDeeper(h, items, less, |h.Keys - seen| - 1);
      case Plain(entries) =>
        GateGivesEntries(h, entries, seen + {v.ref});
        UnfoldEntriesDeeper(h, entries, less, |h.Keys - seen| - 1);
    }
  }

  lemma {:induction false} GateGivesItems(h: Heap, items: seq<Slot>, seen: set<Ref>)
    requires GateItems(h, items, seen).Some?
    ensures UnfoldItems(h, items, |h.Keys - seen|) == GateItems(h, items, seen)
    decreases |h.Keys - seen|, 1, |items|
  {
    if items != [] {
      if items[0].Filled? { GateGivesTree(h, items[0].value, seen); }
      GateGivesItems(h, items[1..], seen);
    }
  }

  lemma {:induction false} GateGivesEntries(h: Heap, es: seq<Entry>, seen: set<Ref>)
    requires GateEntries(h, es, seen).Some?
    ensures UnfoldEntries(h, es, |h.Keys - seen|) == GateEntries(h, es, seen)
    decreases |h.Keys - seen|, 1, |es|
  {
    if es != [] {
      GateGivesTree(h, es[0].value, seen);
      GateGivesEntries(h, es[1..], seen);
    }
  }

  /** A value is accepted exactly when it unfolds to a finite tree whose leaves are JSON, and the result is that
      tree, with an empty slot wherever an array has one: sharing is allowed, cycles are not. */
  lemma GateAcceptsFiniteTrees(h: Heap, v: Value, j: Json)
    ensures Gate(h, v, {}) == Some(j) <==> exists depth: nat :: Unfold(h, v, depth) == Some(j)
  {
    if Gate(h, v, {}) == Some(j) {
      GateGivesTree(h, v, {});
    }
    if depth: nat :| Unfold(h, v, depth) == Some(j) {
      GateFindsTree(h, v, {}, depth);
    }
  }

  // ---- what passes the gate ----------------------------------------------------

  lemma {:induction false} UnfoldIsJson(h: Heap, v: Value, depth: nat)
    requires OneEntryPerKey(h) && Unfold(h, v, depth).Some?
    ensures Encodable(Unfold(h, v, depth).value) && WellFormed(Unfold(h, v, depth).value)
    decreases depth, 0
  {
    if v.Reference? {
      match h[v.ref]
      case List(items) => UnfoldItemsIsJson(h, items, depth - 1);
      case Plain(entries) => UnfoldEntriesIsJson(h, entries, depth - 1);
    }
  }

  lemma {:induction false} UnfoldItemsIsJson(h: Heap, items: seq<Slot>, depth: nat)
    requires OneEntryPerKey(h) && UnfoldItems(h, items, depth).Some?
    ensures var xs := UnfoldItems(h, items, depth).value;
            forall i :: 0 <= i < |xs| ==> (xs[i].Hole? || Encodable(xs[i])) && WellFormed(xs[i])
    decreases depth, 1, |items|
  {
    if items != [] {
      if items[0].Filled? { UnfoldIsJson(h, items[0].value, depth); }
      UnfoldItemsIsJson(h, items[1..], depth);
    }
  }

  lemma {:induction false} UnfoldEntriesIsJson(h: Heap, es: seq<Entry>, depth: nat)
    requires OneEntryPerKey(h) && UnfoldEntries(h, es, depth).Some?
    ensures var ms := UnfoldEntries(h, es, depth).value;
            && |ms| == |es| && (forall i :: 0 <= i < |es| ==> ms[i].key == es[i].key)
            && (forall i :: 0 <= i < |ms| ==> Encodable(ms[i].value) && WellFormed(ms[i].value))
            && (DistinctEntries(es) ==> DistinctKeys(ms))
    decreases depth, 1, |es|
  {
    if es != [] {
      UnfoldIsJson(h, es[0].value, depth);
      UnfoldEntriesIsJson(h, es[1..], depth);
      var ms := UnfoldEntries(h, es, depth).value;
      assert forall i :: 0 < i < |es| ==>
             ms[i] == UnfoldEntries(h, es[1..], depth).value[i - 1] && es[i] == es[1..][i - 1];
    }
  }

  /** Nothing behind the gate can make `canonicalJson` throw, and keys are distinct. */
  lemma AcceptedIsEncodable(h: Heap, v: Value)
    requires OneEntryPerKey(h) && Gate(h, v, {}).Some?
    ensures Encodable(Gate(h, v, {}).value) && WellFormed(Gate(h, v, {}).value)
  {
    GateGivesTree(h, v, {});
    UnfoldIsJson(h, v, |h.Keys - {}|);
  }

  // ---- empty slots ---------------------------------------------------------------

  /** Some array with an empty slot is reached within `depth` objects. */
  predicate ReachesHole(h: Heap, v: Value, depth: nat)
    decreases depth
  {
    v.Reference? && depth > 0 && v.ref in h &&
    match h[v.ref]
    case Exotic(_) => false
    case List(items) => exists i :: 0 <= i < |items| && (items[i].Empty? || ReachesHole(h, items[i].value, depth - 1))
    case Plain(entries) => exists i :: 0 <= i < |entries| && ReachesHole(h, entries[i].value, depth - 1)
  }

  lemma {:induction false} UnfoldDense(h: Heap, v: Value, depth: nat)
    requires Unfold(h, v, depth).Some?
    ensures Dense(Unfold(h, v, depth).value) <==> !ReachesHole(h, v, depth)
    decreases depth, 0
  {
    if v.Reference? {
      match h[v.ref]
      case List(items) => UnfoldItemsDense(h, items, depth - 1);
      case Plain(entries) => UnfoldEntriesDense(h, entries, depth - 1);
    }
  }

  lemma {:induction false} UnfoldItemsDense(h: Heap, items: seq<Slot>, depth: nat)
    requires UnfoldItems(h, items, depth).Some?
    ensures var xs := UnfoldItems(h, items, depth).value;
            |xs| == |items| &&
            forall i :: 0 <= i < |xs| ==>
                   (Dense(xs[i]) <==> !(items[i].Empty? || ReachesHole(h, items[i].value, depth)))
    decreases depth, 1, |items|
  {
    if items != [] {
      if items[0].Filled? { UnfoldDense(h, items[0].value, depth); }
      UnfoldItemsDense(h, items[1..], depth);
    }
  }

  lemma {:induction false} UnfoldEntriesDense(h: Heap, es: seq<Entry>, depth: nat)
    requires UnfoldEntries(h, es, depth).Some?
    ensures var ms := UnfoldEntries(h, es, depth).value;
            |ms| == |es| && forall i :: 0 <= i < |ms| ==> (Dense(ms[i].value) <==> !ReachesHole(h, es[i].value, depth))
    decreases depth, 1, |es|
  {
    if es != [] {
      UnfoldDense(h, es[0].value, depth);
      UnfoldEntriesDense(h, es[1..], depth);
    }
  }

  lemma {:induction false} ReachesDeeper(h: Heap, v: Value, m: nat, n: nat)
    requires m <= n && ReachesHole(h, v, m)
    ensures ReachesHole(h, v, n)
    decreases m
  {
    match h[v.ref]
    case List(items) =>
      var i :| 0 <= i < |items| && (items[i].Empty? || ReachesHole(h, items[i].value, m - 1));
      if items[i].Filled? { ReachesDeeper(h, items[i].value, m - 1, n - 1); }
    case Plain(entries) =>
      var i :| 0 <= i < |entries| && ReachesHole(h, entries[i].value, m - 1);
      ReachesDeeper(h, entries[i].value, m - 1, n - 1);
  }

  /** What passes the gate is a JSON tree exactly when no array it reaches has an empty slot. */
  lemma AcceptedIsJsonExactly(h: Heap, v: Value)
    requires OneEntryPerKey(h) && Gate(h, v, {}).Some?
    ensures IsJson(Gate(h, v, {}).value) <==> forall depth: nat :: !ReachesHole(h, v, depth)
  {
    AcceptedIsEncodable(h, v);
    GateGivesTree(h, v, {});
    var n := |h.Keys - {}|;
    UnfoldDense(h, v, n);
    if depth: nat :| ReachesHole(h, v, depth) {
      var m := if depth < n then n else depth;
      ReachesDeeper(h, v, depth, m);
      UnfoldDeeper(h, v, n, m);
      UnfoldDense(h, v, m);
    }
  }
}
