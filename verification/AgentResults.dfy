// `AgentResultV1`: what `parseAgentResult` accepts, and what `deliverCallback` then sends of it.
module AgentResults {
  import opened Wrappers
  import opened Texts
  import opened JsonValue
  import opened JsonGate

  // ---- the schema -------------------------------------------------------------------------------

  datatype Schema =
    | AnyJson                      // `#/$defs/jsonValue`
    | NonEmpty                     // string, minLength 1
    | Flag                         // boolean
    | Count                        // integer, minimum 0
    | Amount                       // number, minimum 0
    | MapOfJson                    // object, every property a JSON value
    | Closed(fields: seq<Field>)   // object, no other properties
    | ListOf(item: Schema)

  datatype Field = Field(key: Text, schema: Schema, required: bool)

  const USAGE: Schema :=
    Closed([Field(Ascii("inputTokens"), Count, false),
            Field(Ascii("outputTokens"), Count, false),
            Field(Ascii("totalTokens"), Count, false),
            Field(Ascii("costUsd"), Amount, false),
            Field(Ascii("cachedInputTokens"), Count, false),
            Field(Ascii("cacheWriteTokens"), Count, false)])

  const ARTIFACTS: Schema :=
    ListOf(Closed([Field(Ascii("id"), NonEmpty, true),
                   Field(Ascii("name"), NonEmpty, true),
                   Field(Ascii("mediaType"), NonEmpty, false),
                   Field(Ascii("uri"), NonEmpty, false),
                   Field(Ascii("metadata"), MapOfJson, false)]))

  const FAILURE: Schema :=
    Closed([Field(Ascii("code"), NonEmpty, true),
            Field(Ascii("message"), NonEmpty, true),
            Field(Ascii("retryable"), Flag, true),
            Field(Ascii("details"), MapOfJson, false)])

  /** A property read: undefined when there is none. */
  function Property(es: seq<Entry>, key: Text): Value {
    if es == [] then Undefined else if es[0].key == key then es[0].value else Property(es[1..], key)
  }

  function FieldOf(fields: seq<Field>, key: Text): Option<Field> {
    if fields == [] then None else if fields[0].key == key then Some(fields[0]) else FieldOf(fields[1..], key)
  }

  predicate NotNegative(n: Number) {
    match n
    case Int(i) => i >= 0
    case Fraction(text) => text[0] != MINUS
    case NonFinite => false
  }

  /** `findInvalidNumber` and the schema's validator in one: objects of any class are objects, and a declared property
      that is there but undefined is passed over. A cycle overflows the stack, which the caller's catch takes for a
      refusal. */
  predicate Conforms(h: Heap, v: Value, s: Schema, seen: set<Ref>)
    decreases |h.Keys - seen|, 0
  {
    match s
    case NonEmpty => v.Text? && v.s != []
    case Flag => v.Boolean?
    case Count => v.Numeric? && v.num.Int? && NotNegative(v.num) && Safe(v.num)
    case Amount => v.Numeric? && NotNegative(v.num) && Safe(v.num)
    case AnyJson =>
      if !v.Reference? then Leaf(v).Some?
      else
        v.ref in h && v.ref !in seen &&
        (Shrinks(h, v.ref, seen);
         match h[v.ref]
         case List(items) => ItemsConform(h, items, AnyJson, seen + {v.ref})
         case Plain(es) => EntriesConform(h, es, seen + {v.ref})
         case Exotic(es) => EntriesConform(h, es, seen + {v.ref}))
    case MapOfJson =>
      v.Reference? && v.ref in h && v.ref !in seen && !h[v.ref].List? &&
      (Shrinks(h, v.ref, seen); EntriesConform(h, h[v.ref].entries, seen + {v.ref}))
    case Closed(fields) =>
      v.Reference? && v.ref in h && v.ref !in seen && !h[v.ref].List? &&
      (forall i :: 0 <= i < |fields| && fields[i].required ==> !Property(h[v.ref].entries, fields[i].key).Undefined?) &&
      (Shrinks(h, v.ref, seen); FieldsConform(h, h[v.ref].entries, fields, seen + {v.ref}))
    case ListOf(item) =>
      v.Reference? && v.ref in h && v.ref !in seen && h[v.ref].List? &&
      (Shrinks(h, v.ref, seen); ItemsConform(h, h[v.ref].items, item, seen + {v.ref}))
  }

  predicate ItemsConform(h: Heap, items: seq<Slot>, item: Schema, seen: set<Ref>)
    decreases |h.Keys - seen|, 1, |items|
  {
    items == [] ||
    (items[0].Filled? && Conforms(h, items[0].value, item, seen) && ItemsConform(h, items[1..], item, seen))
  }

  predicate EntriesConform(h: Heap, es: seq<Entry>, seen: set<Ref>)
    decreases |h.Keys - seen|, 1, |es|
  {
    es == [] || (Conforms(h, es[0].value, AnyJson, seen) && EntriesConform(h, es[1..], seen))
  }

  predicate FieldsConform(h: Heap, es: seq<Entry>, fields: seq<Field>, seen: set<Ref>)
    decreases |h.Keys - seen|, 1, |es|
  {
    es == [] ||
    (var f := FieldOf(fields, es[0].key);
     && f.Some?
     && (es[0].value.Undefined? || Conforms(h, es[0].value, f.value.schema, seen))
     && FieldsConform(h, es[1..], fields, seen))
  }

  // ---- what of it passes `asJsonValue` ---------------------------------------------------------

  /** Within `depth` objects there is an undefined or an instance of a class. */
  predicate ReachesFlaw(h: Heap, v: Value, depth: nat)
    decreases depth
  {
    || v.Undefined?
    || (v.Reference? && depth > 0 && v.ref in h &&
        match h[v.ref]
        case Exotic(_) => true
        case List(items) =>
          exists i :: 0 <= i < |items| && items[i].Filled? && ReachesFlaw(h, items[i].value, depth - 1)
        case Plain(es) => exists i :: 0 <= i < |es| && ReachesFlaw(h, es[i].value, depth - 1))
  }

  ghost predicate Flawless(h: Heap, v: Value) {
    forall depth: nat :: !ReachesFlaw(h, v, depth)
  }

  lemma {:induction false} FlawDeeper(h: Heap, v: Value, m: nat, n: nat)
    requires m <= n && ReachesFlaw(h, v, m)
    ensures ReachesFlaw(h, v, n)
    decreases m
  {
    if v.Reference? {
      match h[v.ref]
      case Exotic(_) =>
      case List(items) =>
        var i :| 0 <= i < |items| && items[i].Filled? && ReachesFlaw(h, items[i].value, m - 1);
        FlawDeeper(h, items[i].value, m - 1, n - 1);
      case Plain(es) =>
        var i :| 0 <= i < |es| && ReachesFlaw(h, es[i].value, m - 1);
        FlawDeeper(h, es[i].value, m - 1, n - 1);
    }
  }

  lemma {:induction false} TreeHasNoFlaw(h: Heap, v: Value, depth: nat)
    requires Unfold(h, v, depth).Some?
    ensures !ReachesFlaw(h, v, depth)
    decreases depth, 0
  {
    if v.Reference? {
      match h[v.ref]
      case List(items) => ItemsHaveNoFlaw(h, items, depth - 1);
      case Plain(es) => EntriesHaveNoFlaw(h, es, depth - 1);
    }
  }

  lemma {:induction false} ItemsHaveNoFlaw(h: Heap, items: seq<Slot>, depth: nat)
    requires UnfoldItems(h, items, depth).Some?
    ensures forall i :: 0 <= i < |items| && items[i].Filled? ==> !ReachesFlaw(h, items[i].value, depth)
    decreases depth, 1, |items|
  {
    if items != [] {
      if items[0].Filled? { TreeHasNoFlaw(h, items[0].value, depth); }
      ItemsHaveNoFlaw(h, items[1..], depth);
    }
  }

  lemma {:induction false} EntriesHaveNoFlaw(h: Heap, es: seq<Entry>, depth: nat)
    requires UnfoldEntries(h, es, depth).Some?
    ensures forall i :: 0 <= i < |es| ==> !ReachesFlaw(h, es[i].value, depth)
    decreases depth, 1, |es|
  {
    if es != [] {
      TreeHasNoFlaw(h, es[0].value, depth);
      EntriesHaveNoFlaw(h, es[1..], depth);
    }
  }

  /** What passes the gate has no flaw, however deep one looks. */
  lemma PassedIsFlawless(h: Heap, v: Value)
    requires Gate(h, v, {}).Some?
    ensures Flawless(h, v)
  {
    GateGivesTree(h, v, {});
    var n := |h.Keys - {}|;
    if depth: nat :| ReachesFlaw(h, v, depth) {
      var m := if depth < n then n else depth;
      FlawDeeper(h, v, depth, m);
      UnfoldDeeper(h, v, n, m);
      TreeHasNoFlaw(h, v, m);
    }
  }

  lemma {:induction false} FlawlessPasses(h: Heap, v: Value, s: Schema, seen: set<Ref>)
    requires Conforms(h, v, s, seen) && !ReachesFlaw(h, v, |h.Keys - seen|)
    ensures Gate(h, v, seen).Some? && Dense(Gate(h, v, seen).value)
    decreases |h.Keys - seen|, 0
  {
    if v.Reference? {
      Shrinks(h, v.ref, seen);
      var seen1 := seen + {v.ref};
      var n := |h.Keys - seen1|;
      match h[v.ref]
      case List(items) =>
        forall i | 0 <= i < |items| && items[i].Filled? ensures !ReachesFlaw(h, items[i].value, n) {
          if ReachesFlaw(h, items[i].value, n) { FlawDeeper(h, items[i].value, n, |h.Keys - seen| - 1); }
        }
        FlawlessItems(h, items, if s.ListOf? then s.item else AnyJson, seen1);
      case Plain(es) =>
        forall i | 0 <= i < |es| ensures !ReachesFlaw(h, es[i].value, n) {
          if ReachesFlaw(h, es[i].value, n) { FlawDeeper(h, es[i].value, n, |h.Keys - seen| - 1); }
        }
        if s.Closed? { FlawlessFields(h, es, s.fields, seen1); } else { FlawlessEntries(h, es, seen1); }
    }
  }

  lemma {:induction false} FlawlessItems(h: Heap, items: seq<Slot>, item: Schema, seen: set<Ref>)
    requires ItemsConform(h, items, item, seen)
    requires forall i :: 0 <= i < |items| && items[i].Filled? ==> !ReachesFlaw(h, items[i].value, |h.Keys - seen|)
    ensures GateItems(h, items, seen).Some?
    ensures forall i :: 0 <= i < |GateItems(h, items, seen).value| ==> Dense(GateItems(h, items, seen).value[i])
    decreases |h.Keys - seen|, 1, |items|
  {
    if items != [] {
      FlawlessPasses(h, items[0].value, item, seen);
      FlawlessItems(h, items[1..], item, seen);
    }
  }

  lemma {:induction false} FlawlessEntries(h: Heap, es: seq<Entry>, seen: set<Ref>)
    requires EntriesConform(h, es, seen)
    requires forall i :: 0 <= i < |es| ==> !ReachesFlaw(h, es[i].value, |h.Keys - seen|)
    ensures GateEntries(h, es, seen).Some?
    ensures forall i :: 0 <= i < |GateEntries(h, es, seen).value| ==> Dense(GateEntries(h, es, seen).value[i].value)
    decreases |h.Keys - seen|, 1, |es|
  {
    if es != [] {
      FlawlessPasses(h, es[0].value, AnyJson, seen);
      FlawlessEntries(h, es[1..], seen);
    }
  }

  lemma {:induction false} FlawlessFields(h: Heap, es: seq<Entry>, fields: seq<Field>, seen: set<Ref>)
    requires FieldsConform(h, es, fields, seen)
    requires forall i :: 0 <= i < |es| ==> !ReachesFlaw(h, es[i].value, |h.Keys - seen|)
    ensures GateEntries(h, es, seen).Some?
    ensures forall i :: 0 <= i < |GateEntries(h, es, seen).value| ==> Dense(GateEntries(h, es, seen).value[i].value)
    decreases |h.Keys - seen|, 1, |es|
  {
    if es != [] {
      FlawlessPasses(h, es[0].value, FieldOf(fields, es[0].key).value.schema, seen);
      FlawlessFields(h, es[1..], fields, seen);
    }
  }

  /** What the schema accepts passes the gate exactly when it reaches no undefined and no instance of a class. */
  lemma PassesExactly(h: Heap, v: Value, s: Schema)
    requires Conforms(h, v, s, {})
    ensures Gate(h, v, {}).Some? <==> Flawless(h, v)
    ensures Gate(h, v, {}).Some? ==> Dense(Gate(h, v, {}).value)
  {
    if Gate(h, v, {}).Some? { PassedIsFlawless(h, v); }
    if Flawless(h, v) { FlawlessPasses(h, v, s, {}); }
  }

  // ---- what the schema means ----------------------------------------------------------------------

  /** The heap as the schema's validator sees it, to whom an instance of a class is an object like any other. */
  function Softened(h: Heap): Heap {
    map r | r in h :: if h[r].Exotic? then Plain(h[r].entries) else h[r]
  }

  /** A JSON value to the schema: through instances of classes it unfolds to a finite tree without empty slots. */
  lemma {:induction false} JsonMeans(h: Heap, v: Value, seen: set<Ref>)
    ensures Conforms(h, v, AnyJson, seen) <==>
            Gate(Softened(h), v, seen).Some? && Dense(Gate(Softened(h), v, seen).value)
    decreases |h.Keys - seen|, 0
  {
    assert Softened(h).Keys == h.Keys;
    if v.Reference? && v.ref in h && v.ref !in seen {
      Shrinks(h, v.ref, seen);
      match h[v.ref]
      case List(items) => ItemsMean(h, items, seen + {v.ref});
      case Plain(es) => EntriesMean(h, es, seen + {v.ref});
      case Exotic(es) => EntriesMean(h, es, seen + {v.ref});
    }
  }

  predicate AllDense(xs: seq<Json>) { forall i :: 0 <= i < |xs| ==> Dense(xs[i]) }

  predicate AllValuesDense(ms: seq<Member>) { forall i :: 0 <= i < |ms| ==> Dense(ms[i].value) }

  lemma DenseCons(x: Json, xs: seq<Json>)
    ensures AllDense([x] + xs) <==> Dense(x) && AllDense(xs)
  {
    assert ([x] + xs)[0] == x && forall i :: 0 <= i < |xs| ==> ([x] + xs)[i + 1] == xs[i];
  }

  lemma ValuesDenseCons(m: Member, ms: seq<Member>)
    ensures AllValuesDense([m] + ms) <==> Dense(m.value) && AllValuesDense(ms)
  {
    assert ([m] + ms)[0] == m && forall i :: 0 <= i < |ms| ==> ([m] + ms)[i + 1] == ms[i];
  }

  lemma {:induction false} ItemsMean(h: Heap, items: seq<Slot>, seen: set<Ref>)
    ensures var xs := GateItems(Softened(h), items, seen);
            ItemsConform(h, items, AnyJson, seen) <==> xs.Some? && AllDense(xs.value)
    decreases |h.Keys - seen|, 1, |items|
  {
    hide AllDense;
    assert Softened(h).Keys == h.Keys;
    if items == [] {
      NothingIsDense();
    } else {
      var soft := Softened(h);
      if items[0].Filled? { JsonMeans(h, items[0].value, seen); }
      ItemsMean(h, items[1..], seen);
      var x := if items[0].Empty? then Some(Hole) else Gate(soft, items[0].value, seen);
      var rest := GateItems(soft, items[1..], seen);
      if x.Some? && rest.Some? { DenseCons(x.value, rest.value); }
    }
  }

  lemma NothingIsDense()
    ensures AllDense([]) && AllValuesDense([])
  {}

  lemma {:induction false} EntriesMean(h: Heap, es: seq<Entry>, seen: set<Ref>)
    ensures var ms := GateEntries(Softened(h), es, seen);
            EntriesConform(h, es, seen) <==> ms.Some? && AllValuesDense(ms.value)
    decreases |h.Keys - seen|, 1, |es|
  {
    hide AllValuesDense;
    assert Softened(h).Keys == h.Keys;
    if es == [] {
      NothingIsDense();
    } else {
      var soft := Softened(h);
      JsonMeans(h, es[0].value, seen);
      EntriesMean(h, es[1..], seen);
      var x, rest := Gate(soft, es[0].value, seen), GateEntries(soft, es[1..], seen);
      if x.Some? && rest.Some? { ValuesDenseCons(Member(es[0].key, x.value), rest.value); }
    }
  }

  /** No property is declared nowhere, and each is undefined or what its declaration asks for. */
  lemma {:induction false} FieldsMean(h: Heap, es: seq<Entry>, fields: seq<Field>, seen: set<Ref>)
    ensures FieldsConform(h, es, fields, seen) <==>
            forall i :: 0 <= i < |es| ==>
              var f := FieldOf(fields, es[i].key);
              f.Some? && (es[i].value.Undefined? || Conforms(h, es[i].value, f.value.schema, seen))
  {
    if es != [] {
      FieldsMean(h, es[1..], fields, seen);
      assert forall i :: 0 < i < |es| ==> es[i] == es[1..][i - 1];
    }
  }

  lemma FieldOfMore(fields: seq<Field>, key: Text)
    requires fields != []
    ensures FieldOf(fields, key) == if fields[0].key == key then Some(fields[0]) else FieldOf(fields[1..], key)
  {}

  predicate IsObject(h: Heap, v: Value) { v.Reference? && v.ref in h && !h[v.ref].List? }

  predicate IsCount(v: Value) { v.Numeric? && v.num.Int? && 0 <= v.num.n <= 9007199254740991 }

  predicate IsText(v: Value) { v.Text? && v.s != [] }

  /** A property that usage may have: a count of tokens, or the cost. */
  predicate IsUsageEntry(key: Text, v: Value) {
    || (key in TokenKeys() && (v.Undefined? || IsCount(v)))
    || (key == Ascii("costUsd")
        && (v.Undefined? || IsCount(v) || (v.Numeric? && v.num.Fraction? && v.num.text[0] != 45)))
  }

  /** Usage: an object with such properties and nothing else. */
  lemma UsageMeans(h: Heap, v: Value)
    ensures Conforms(h, v, USAGE, {}) <==>
            IsObject(h, v) &&
            forall i :: 0 <= i < |h[v.ref].entries| ==> IsUsageEntry(h[v.ref].entries[i].key, h[v.ref].entries[i].value)
  {
    hide Ascii, IsUsageEntry, FieldOf, TokenKeys;
    if IsObject(h, v) {
      Shrinks(h, v.ref, {});
      var es := h[v.ref].entries;
      var seen := {} + {v.ref};
      FieldsMean(h, es, USAGE.fields, seen);
      forall i | 0 <= i < |es|
        ensures IsUsageEntry(es[i].key, es[i].value) <==>
                var f := FieldOf(USAGE.fields, es[i].key);
                f.Some? && (es[i].value.Undefined? || Conforms(h, es[i].value, f.value.schema, seen))
      {
        UsageEntryMeans(h, es[i].key, es[i].value, seen);
      }
    }
  }

  lemma UsageEntryMeans(h: Heap, key: Text, v: Value, seen: set<Ref>)
    ensures IsUsageEntry(key, v) <==>
            var f := FieldOf(USAGE.fields, key); f.Some? && (v.Undefined? || Conforms(h, v, f.value.schema, seen))
  {
    hide Ascii, FieldOf, TokenKeys;
    UsageField(key);
  }

  function TokenKeys(): set<Text> {
    {Ascii("inputTokens"), Ascii("outputTokens"), Ascii("totalTokens"), Ascii("cachedInputTokens"),
     Ascii("cacheWriteTokens")}
  }

  lemma CostIsNoCount()
    ensures Ascii("costUsd") !in TokenKeys()
  {
    assert |Ascii("costUsd")| == 7 && |Ascii("inputTokens")| == 11 && |Ascii("outputTokens")| == 12;
    assert |Ascii("totalTokens")| == 11 && |Ascii("cachedInputTokens")| == 17 && |Ascii("cacheWriteTokens")| == 16;
  }

  lemma UsageField(key: Text)
    ensures var f := FieldOf(USAGE.fields, key);
            && (f.Some? <==> key in TokenKeys() || key == Ascii("costUsd"))
            && (key in TokenKeys() ==> f.value.schema == Count)
            && (key == Ascii("costUsd") ==> f.value.schema == Amount)
  {
    CostIsNoCount();
    hide Ascii;
    var fields := USAGE.fields;
    FieldOfMore(fields, key);
    FieldOfMore(fields[1..], key);
    FieldOfMore(fields[2..], key);
    FieldOfMore(fields[3..], key);
    FieldOfMore(fields[4..], key);
    FieldOfMore(fields[5..], key);
  }

  /** An object whose properties are JSON values. */
  lemma MapMeans(h: Heap, v: Value, seen: set<Ref>)
    ensures Conforms(h, v, MapOfJson, seen) <==> IsObject(h, v) && Conforms(h, v, AnyJson, seen)
  {}

  /** A property that a failure may have. */
  predicate IsFailureEntry(h: Heap, key: Text, v: Value, seen: set<Ref>) {
    || ((key == Ascii("code") || key == Ascii("message")) && (v.Undefined? || IsText(v)))
    || (key == Ascii("retryable") && (v.Undefined? || v.Boolean?))
    || (key == Ascii("details") && (v.Undefined? || Conforms(h, v, MapOfJson, seen)))
  }

  /** A failure: an object with a code, a message and whether to retry, perhaps details, and nothing else. */
  lemma FailureMeans(h: Heap, v: Value)
    ensures Conforms(h, v, FAILURE, {}) <==>
            IsObject(h, v) && var es := h[v.ref].entries;
            && !Property(es, Ascii("code")).Undefined? && !Property(es, Ascii("message")).Undefined?
            && !Property(es, Ascii("retryable")).Undefined?
            && forall i :: 0 <= i < |es| ==> IsFailureEntry(h, es[i].key, es[i].value, {} + {v.ref})
  {
    hide Ascii, IsFailureEntry, FieldOf, Property;
    if IsObject(h, v) {
      Shrinks(h, v.ref, {});
      var es := h[v.ref].entries;
      var seen := {} + {v.ref};
      FieldsMean(h, es, FAILURE.fields, seen);
      FailureRequires(es);
      forall i | 0 <= i < |es|
        ensures IsFailureEntry(h, es[i].key, es[i].value, seen) <==>
                var f := FieldOf(FAILURE.fields, es[i].key);
                f.Some? && (es[i].value.Undefined? || Conforms(h, es[i].value, f.value.schema, seen))
      {
        FailureEntryMeans(h, es[i].key, es[i].value, seen);
      }
    }
  }

  lemma FailureRequires(es: seq<Entry>)
    ensures var fields := FAILURE.fields;
            (forall i :: 0 <= i < |fields| && fields[i].required ==> !Property(es, fields[i].key).Undefined?) <==>
            && !Property(es, Ascii("code")).Undefined? && !Property(es, Ascii("message")).Undefined?
            && !Property(es, Ascii("retryable")).Undefined?
  {
    hide Ascii, Property;
    var fields := FAILURE.fields;
    assert fields[0].key == Ascii("code") && fields[1].key == Ascii("message") && fields[2].key == Ascii("retryable");
  }

  lemma FailureKeys()
    ensures Ascii("code") != Ascii("message") && Ascii("code") != Ascii("retryable")
    ensures Ascii("code") != Ascii("details")
    ensures Ascii("message") != Ascii("retryable") && Ascii("message") != Ascii("details")
    ensures Ascii("retryable") != Ascii("details")
  {
    assert |Ascii("code")| == 4 && |Ascii("retryable")| == 9;
    assert Ascii("message")[0] == 109 && Ascii("details")[0] == 100;
    assert |Ascii("message")| == 7 && |Ascii("details")| == 7;
  }

  lemma FailureEntryMeans(h: Heap, key: Text, v: Value, seen: set<Ref>)
    ensures IsFailureEntry(h, key, v, seen) <==>
            var f := FieldOf(FAILURE.fields, key); f.Some? && (v.Undefined? || Conforms(h, v, f.value.schema, seen))
  {
    FailureKeys();
    hide Ascii;
    var fields := FAILURE.fields;
    FieldOfMore(fields, key);
    FieldOfMore(fields[1..], key);
    FieldOfMore(fields[2..], key);
    FieldOfMore(fields[3..], key);
  }

  lemma {:induction false} ListMeans(h: Heap, items: seq<Slot>, item: Schema, seen: set<Ref>)
    ensures ItemsConform(h, items, item, seen) <==>
            forall i :: 0 <= i < |items| ==> items[i].Filled? && Conforms(h, items[i].value, item, seen)
  {
    if items != [] {
      ListMeans(h, items[1..], item, seen);
      assert forall i :: 0 < i < |items| ==> items[i] == items[1..][i - 1];
    }
  }

  /** A property that an artifact may have. */
  predicate IsArtifactEntry(h: Heap, key: Text, v: Value, seen: set<Ref>) {
    || (key in ArtifactTexts() && (v.Undefined? || IsText(v)))
    || (key == Ascii("metadata") && (v.Undefined? || Conforms(h, v, MapOfJson, seen)))
  }

  function ArtifactTexts(): set<Text> { {Ascii("id"), Ascii("name"), Ascii("mediaType"), Ascii("uri")} }

  /** An artifact, not nested in itself: an object with an id and a name, perhaps more, and nothing else. */
  predicate IsArtifact(h: Heap, v: Value, seen: set<Ref>) {
    IsObject(h, v) && v.ref !in seen && var es := h[v.ref].entries;
    && !Property(es, Ascii("id")).Undefined? && !Property(es, Ascii("name")).Undefined?
    && forall i :: 0 <= i < |es| ==> IsArtifactEntry(h, es[i].key, es[i].value, seen + {v.ref})
  }

  /** Artifacts: an array of them, without empty slots. */
  lemma ArtifactsMean(h: Heap, v: Value)
    ensures Conforms(h, v, ARTIFACTS, {}) <==>
            && v.Reference? && v.ref in h && h[v.ref].List?
            && forall i :: 0 <= i < |h[v.ref].items| ==>
                 h[v.ref].items[i].Filled? && IsArtifact(h, h[v.ref].items[i].value, {} + {v.ref})
  {
    hide Ascii, IsArtifact;
    if v.Reference? && v.ref in h && h[v.ref].List? {
      Shrinks(h, v.ref, {});
      var items, seen := h[v.ref].items, {} + {v.ref};
      ListMeans(h, items, ARTIFACTS.item, seen);
      forall i | 0 <= i < |items| && items[i].Filled?
        ensures Conforms(h, items[i].value, ARTIFACTS.item, seen) <==> IsArtifact(h, items[i].value, seen)
      {
        ArtifactMeans(h, items[i].value, seen);
      }
    }
  }

  lemma ClosedMeans(h: Heap, v: Value, fields: seq<Field>, seen: set<Ref>)
    ensures Conforms(h, v, Closed(fields), seen) <==>
            IsObject(h, v) && v.ref !in seen
            && (forall i :: 0 <= i < |fields| && fields[i].required ==>
                  !Property(h[v.ref].entries, fields[i].key).Undefined?)
            && FieldsConform(h, h[v.ref].entries, fields, seen + {v.ref})
  {
    hide Property;
  }

  lemma ArtifactMeans(h: Heap, v: Value, seen: set<Ref>)
    ensures Conforms(h, v, ARTIFACTS.item, seen) <==> IsArtifact(h, v, seen)
  {
    hide Ascii, IsArtifactEntry, FieldOf, Property, Conforms, FieldsConform;
    var fields := ARTIFACTS.item.fields;
    ClosedMeans(h, v, fields, seen);
    if IsObject(h, v) && v.ref !in seen {
      var es, deeper := h[v.ref].entries, seen + {v.ref};
      FieldsMean(h, es, fields, deeper);
      assert fields[0].key == Ascii("id") && fields[1].key == Ascii("name");
      forall i | 0 <= i < |es|
        ensures IsArtifactEntry(h, es[i].key, es[i].value, deeper) <==>
                var f := FieldOf(fields, es[i].key);
                f.Some? && (es[i].value.Undefined? || Conforms(h, es[i].value, f.value.schema, deeper))
      {
        ArtifactEntryMeans(h, es[i].key, es[i].value, deeper);
      }
    }
  }

  lemma MetadataIsNoText()
    ensures Ascii("metadata") !in ArtifactTexts()
  {
    assert |Ascii("metadata")| == 8 && |Ascii("id")| == 2 && |Ascii("name")| == 4;
    assert |Ascii("mediaType")| == 9 && |Ascii("uri")| == 3;
  }

  lemma ArtifactEntryMeans(h: Heap, key: Text, v: Value, seen: set<Ref>)
    ensures IsArtifactEntry(h, key, v, seen) <==>
            var f := FieldOf(ARTIFACTS.item.fields, key);
            f.Some? && (v.Undefined? || Conforms(h, v, f.value.schema, seen))
  {
    MetadataIsNoText();
    hide Ascii;
    var fields := ARTIFACTS.item.fields;
    FieldOfMore(fields, key);
    FieldOfMore(fields[1..], key);
    FieldOfMore(fields[2..], key);
    FieldOfMore(fields[3..], key);
    FieldOfMore(fields[4..], key);
  }

  // ---- the result ----------------------------------------------------------------------------------

  type Name = t: Text | t != [] witness [65]

  datatype Invocation = Invocation(invocationId: Name, executionId: Name, stepExecutionId: Name)

  datatype Status = Succeeded | Failed | Cancelled | TimedOut

  /** An error the Worker words itself, or the failure object of an `AgentExecutionError`. */
  datatype Problem = Worded(code: Name, message: Name, retryable: bool) | Thrown(failure: Value)

  /** The output is the copy that `asJsonValue` made; the rest is still the agent's own. Undefined is absent. */
  datatype AgentResult = AgentResult(
    heap: JsHeap,
    invocation: Invocation,
    status: Status,
    output: Option<Json>,
    problem: Option<Problem>,
    usage: Value,
    artifacts: Value,
    metadata: Value,
    startedAt: Text,
    completedAt: Text)

  predicate Optionally(h: Heap, v: Value, s: Schema) {
    v.Undefined? || Conforms(h, v, s, {})
  }

  /** `parseAgentResult`. */
  predicate Parses(r: AgentResult) {
    && (r.output.Some? ==> IsJson(r.output.value))
    && (r.problem.Some? && r.problem.value.Thrown? ==> Conforms(r.heap, r.problem.value.failure, FAILURE, {}))
    && Optionally(r.heap, r.usage, USAGE)
    && Optionally(r.heap, r.artifacts, ARTIFACTS)
    && Optionally(r.heap, r.metadata, MapOfJson)
    && (r.status.Succeeded? <==> r.problem.None?)
  }

  function StatusText(s: Status): Text {
    match s
    case Succeeded => Ascii("succeeded")
    case Failed => Ascii("failed")
    case Cancelled => Ascii("cancelled")
    case TimedOut => Ascii("timed_out")
  }

  /** `asJsonValue` throws on a property that is there. */
  predicate Refused(h: Heap, v: Value) {
    !v.Undefined? && Gate(h, v, {}).None?
  }

  function Copied(h: Heap, v: Value): Option<Json> {
    if v.Undefined? then None else Gate(h, v, {})
  }

  function Wording(code: Text, message: Text, retryable: bool): Json {
    Obj([Member(Ascii("code"), Str(code)), Member(Ascii("message"), Str(message)),
         Member(Ascii("retryable"), Bool(retryable))])
  }

  function ProblemOf(r: AgentResult): Option<Json> {
    match r.problem
    case None => None
    case Some(Worded(code, message, retryable)) => Some(Wording(code, message, retryable))
    case Some(Thrown(failure)) => Gate(r.heap, failure, {})
  }

  /** A property of the result, if it is there. */
  datatype Part = Part(key: Text, value: Option<Json>)

  function Parts(r: AgentResult): seq<Part> {
    [Part(Ascii("schemaVersion"), Some(Str(Ascii("1")))),
     Part(Ascii("invocationId"), Some(Str(r.invocation.invocationId))),
     Part(Ascii("executionId"), Some(Str(r.invocation.executionId))),
     Part(Ascii("stepExecutionId"), Some(Str(r.invocation.stepExecutionId))),
     Part(Ascii("status"), Some(Str(StatusText(r.status)))),
     Part(Ascii("output"), r.output),
     Part(Ascii("error"), ProblemOf(r)),
     Part(Ascii("usage"), Copied(r.heap, r.usage)),
     Part(Ascii("artifacts"), Copied(r.heap, r.artifacts)),
     Part(Ascii("metadata"), Copied(r.heap, r.metadata)),
     Part(Ascii("startedAt"), Some(Str(r.startedAt))),
     Part(Ascii("completedAt"), Some(Str(r.completedAt)))]
  }

  function Members(parts: seq<Part>): seq<Member> {
    if parts == [] then []
    else (if parts[0].value.Some? then [Member(parts[0].key, parts[0].value.value)] else []) + Members(parts[1..])
  }

  /** `asJsonValue(result)` in `deliverCallback`: none when it throws. The output is a tree it has made itself, and
      passes again as it is. */
  function Sent(r: AgentResult): Option<Json> {
    if (r.problem.Some? && r.problem.value.Thrown? && Gate(r.heap, r.problem.value.failure, {}).None?)
       || Refused(r.heap, r.usage) || Refused(r.heap, r.artifacts) || Refused(r.heap, r.metadata) then None
    else Some(Obj(Members(Parts(r))))
  }

  /** Some part of the result that the agent supplied reaches an undefined or an instance of a class. */
  ghost predicate Flawed(r: AgentResult) {
    || (r.problem.Some? && r.problem.value.Thrown? && !Flawless(r.heap, r.problem.value.failure))
    || (!r.usage.Undefined? && !Flawless(r.heap, r.usage))
    || (!r.artifacts.Undefined? && !Flawless(r.heap, r.artifacts))
    || (!r.metadata.Undefined? && !Flawless(r.heap, r.metadata))
  }

  /** A result that the contract accepts can be sent exactly when it is not flawed. */
  lemma SentExactly(r: AgentResult)
    requires Parses(r)
    ensures Sent(r).Some? <==> !Flawed(r)
  {
    hide Conforms, Gate, Flawless;
    if r.problem.Some? && r.problem.value.Thrown? { PassesExactly(r.heap, r.problem.value.failure, FAILURE); }
    if !r.usage.Undefined? { PassesExactly(r.heap, r.usage, USAGE); }
    if !r.artifacts.Undefined? { PassesExactly(r.heap, r.artifacts, ARTIFACTS); }
    if !r.metadata.Undefined? { PassesExactly(r.heap, r.metadata, MapOfJson); }
  }

  // ---- what is sent of it --------------------------------------------------------------------------

  predicate DistinctParts(parts: seq<Part>) {
    forall i, j :: 0 <= i < j < |parts| ==> parts[i].key != parts[j].key
  }

  lemma {:induction false} MembersAre(parts: seq<Part>, key: Text, v: Json)
    ensures Member(key, v) in Members(parts) <==> exists i :: 0 <= i < |parts| && parts[i] == Part(key, Some(v))
  {
    if parts != [] {
      MembersAre(parts[1..], key, v);
      assert forall i :: 0 < i < |parts| ==> parts[i] == parts[1..][i - 1];
      if Member(key, v) in Members(parts[1..]) {
        var i :| 0 <= i < |parts[1..]| && parts[1..][i] == Part(key, Some(v));
        assert parts[i + 1] == Part(key, Some(v));
      }
    }
  }

  lemma {:induction false} MembersDistinct(parts: seq<Part>)
    requires DistinctParts(parts)
    ensures DistinctKeys(Members(parts))
  {
    if parts != [] {
      var rest := parts[1..];
      MembersDistinct(rest);
      var ms := Members(rest);
      forall m | m in ms ensures m.key != parts[0].key {
        MembersAre(rest, m.key, m.value);
        var i :| 0 <= i < |rest| && rest[i] == Part(m.key, Some(m.value));
        assert parts[i + 1] == rest[i];
      }
    }
  }

  lemma PartsDiffer(r: AgentResult)
    ensures DistinctParts(Parts(r))
  {
    hide StatusText, ProblemOf, Copied;
    var keys := seq(12, i requires 0 <= i < 12 => Parts(r)[i].key);
    assert |keys[0]| == 13 && |keys[1]| == 12 && |keys[2]| == 11 && |keys[3]| == 15 && |keys[4]| == 6 && |keys[5]| == 6;
    assert |keys[6]| == 5 && |keys[7]| == 5 && |keys[8]| == 9 && |keys[9]| == 8 && |keys[10]| == 9 && |keys[11]| == 11;
    assert keys[2][0] == 101 && keys[11][0] == 99 && keys[4][0] == 115 && keys[5][0] == 111;
    assert keys[6][0] == 101 && keys[7][0] == 117 && keys[8][0] == 97 && keys[10][0] == 115;
  }

  /** The object sent has a property of a key and value. */
  ghost predicate Has(sent: Json, key: string, v: Json) {
    sent.Obj? && Member(Ascii(key), v) in sent.members
  }

  lemma PartsAt(r: AgentResult)
    ensures var ps := Parts(r);
            && |ps| == 12 && ps[0] == Part(Ascii("schemaVersion"), Some(Str(Ascii("1"))))
            && ps[1] == Part(Ascii("invocationId"), Some(Str(r.invocation.invocationId)))
            && ps[2] == Part(Ascii("executionId"), Some(Str(r.invocation.executionId)))
            && ps[3] == Part(Ascii("stepExecutionId"), Some(Str(r.invocation.stepExecutionId)))
            && ps[4] == Part(Ascii("status"), Some(Str(StatusText(r.status))))
            && ps[5] == Part(Ascii("output"), r.output)
            && ps[6] == Part(Ascii("error"), ProblemOf(r)) && ps[7] == Part(Ascii("usage"), Copied(r.heap, r.usage))
            && ps[8] == Part(Ascii("artifacts"), Copied(r.heap, r.artifacts))
            && ps[9] == Part(Ascii("metadata"), Copied(r.heap, r.metadata))
            && ps[10] == Part(Ascii("startedAt"), Some(Str(r.startedAt)))
            && ps[11] == Part(Ascii("completedAt"), Some(Str(r.completedAt)))
  {
    hide StatusText, Copied, ProblemOf, Ascii;
  }

  /** A part is sent exactly as it is. */
  lemma PartIsSent(r: AgentResult, i: nat, v: Json)
    requires Sent(r).Some? && i < |Parts(r)|
    ensures Member(Parts(r)[i].key, v) in Sent(r).value.members <==> Parts(r)[i].value == Some(v)
  {
    hide Parts, Members;
    PartsDiffer(r);
    MembersAre(Parts(r), Parts(r)[i].key, v);
  }

  /** What is sent has no property twice, and names the invocation, the status and the times. */
  lemma SentNames(r: AgentResult)
    requires Sent(r).Some?
    ensures var sent := Sent(r).value;
            && sent.Obj? && DistinctKeys(sent.members)
            && Has(sent, "schemaVersion", Str(Ascii("1")))
            && Has(sent, "status", Str(Ascii(match r.status
                                             case Succeeded => "succeeded"
                                             case Failed => "failed"
                                             case Cancelled => "cancelled"
                                             case TimedOut => "timed_out")))
            && Has(sent, "invocationId", Str(r.invocation.invocationId))
            && Has(sent, "executionId", Str(r.invocation.executionId))
            && Has(sent, "stepExecutionId", Str(r.invocation.stepExecutionId))
            && Has(sent, "startedAt", Str(r.startedAt)) && Has(sent, "completedAt", Str(r.completedAt))
  {
    PartsDiffer(r);
    MembersDistinct(Parts(r));
    PartsAt(r);
    hide Parts, Ascii;
    PartIsSent(r, 0, Str(Ascii("1")));
    PartIsSent(r, 1, Str(r.invocation.invocationId));
    PartIsSent(r, 2, Str(r.invocation.executionId));
    PartIsSent(r, 3, Str(r.invocation.stepExecutionId));
    PartIsSent(r, 4, Str(StatusText(r.status)));
    PartIsSent(r, 10, Str(r.startedAt));
    PartIsSent(r, 11, Str(r.completedAt));
  }

  /** It carries the output, the problem and each other part that is there, as the gate copies it, and nothing in the
      place of one that is not. */
  lemma SentCarries(r: AgentResult, tree: Json)
    requires Sent(r).Some?
    ensures var sent := Sent(r).value;
            && (Has(sent, "output", tree) <==> r.output == Some(tree))
            && (Has(sent, "usage", tree) <==> !r.usage.Undefined? && Gate(r.heap, r.usage, {}) == Some(tree))
            && (Has(sent, "artifacts", tree) <==>
                  !r.artifacts.Undefined? && Gate(r.heap, r.artifacts, {}) == Some(tree))
            && (Has(sent, "metadata", tree) <==> !r.metadata.Undefined? && Gate(r.heap, r.metadata, {}) == Some(tree))
            && (Has(sent, "error", tree) <==>
                  r.problem.Some? &&
                  match r.problem.value
                  case Worded(code, message, retryable) => tree == Wording(code, message, retryable)
                  case Thrown(failure) => Gate(r.heap, failure, {}) == Some(tree))
  {
    PartsAt(r);
    hide Parts, Ascii, Gate, Wording;
    PartIsSent(r, 5, tree);
    PartIsSent(r, 6, tree);
    PartIsSent(r, 7, tree);
    PartIsSent(r, 8, tree);
    PartIsSent(r, 9, tree);
  }

  // ---- it is JSON ---------------------------------------------------------------------------------------

  lemma CopiedIsJson(h: Heap, v: Value, s: Schema)
    requires OneEntryPerKey(h) && Optionally(h, v, s) && Copied(h, v).Some?
    ensures IsJson(Copied(h, v).value)
  {
    PassesExactly(h, v, s);
    AcceptedIsEncodable(h, v);
  }

  lemma WordingIsJson(code: Text, message: Text, retryable: bool)
    ensures IsJson(Wording(code, message, retryable))
  {
    var ms := Wording(code, message, retryable).members;
    assert forall i :: 0 <= i < |ms| ==> IsJson(ms[i].value);
  }

  lemma ProblemIsJson(r: AgentResult)
    requires Parses(r) && ProblemOf(r).Some?
    ensures IsJson(ProblemOf(r).value)
  {
    if r.problem.value.Thrown? {
      PassesExactly(r.heap, r.problem.value.failure, FAILURE);
      AcceptedIsEncodable(r.heap, r.problem.value.failure);
    } else {
      var p := r.problem.value;
      WordingIsJson(p.code, p.message, p.retryable);
    }
  }

  lemma PartsAreJson(r: AgentResult)
    requires Parses(r)
    ensures forall i :: 0 <= i < |Parts(r)| && Parts(r)[i].value.Some? ==> IsJson(Parts(r)[i].value.value)
  {
    hide Conforms, Gate, Copied, ProblemOf, StatusText, Ascii;
    if ProblemOf(r).Some? { ProblemIsJson(r); }
    if Copied(r.heap, r.usage).Some? { CopiedIsJson(r.heap, r.usage, USAGE); }
    if Copied(r.heap, r.artifacts).Some? { CopiedIsJson(r.heap, r.artifacts, ARTIFACTS); }
    if Copied(r.heap, r.metadata).Some? { CopiedIsJson(r.heap, r.metadata, MapOfJson); }
  }

  /** What is sent is a JSON tree: the schema refuses the empty slots that the gate lets pass. */
  lemma SentIsJson(r: AgentResult)
    requires Parses(r) && Sent(r).Some?
    ensures IsJson(Sent(r).value)
  {
    hide Conforms, Gate, Parts;
    PartsAreJson(r);
    var ms := Members(Parts(r));
    forall i | 0 <= i < |ms| ensures IsJson(ms[i].value) {
      MembersAre(Parts(r), ms[i].key, ms[i].value);
      assert Member(ms[i].key, ms[i].value) in ms;
    }
  }
}
