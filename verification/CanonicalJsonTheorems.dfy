// What the canonical text means: two values get the same text exactly when they
// are the same JSON data, and the fingerprint preimage adds the key without ambiguity.
module CanonicalTheorems {
  import opened Wrappers
  import opened Texts
  import opened JsonValue
  import opened Canonical
  import opened CanonicalProofs

  lemma {:induction false} NormalizeItemsAt(items: seq<Json>, i: nat)
    requires i < |items|
    ensures NormalizeItems(items)[i] == Normalize(items[i])
  {
    if i > 0 { NormalizeItemsAt(items[1..], i - 1); }
  }

  lemma {:induction false} NormalizeMembersAt(ms: seq<Member>, i: nat)
    requires i < |ms|
    ensures NormalizeMembers(ms)[i] == Member(ms[i].key, Normalize(ms[i].value))
  {
    if i > 0 { NormalizeMembersAt(ms[1..], i - 1); }
  }

  lemma SortedPosition(ms: seq<Member>, i: nat) returns (p: nat)
    requires i < |ms|
    ensures p < |SortMembers(ms)| && SortMembers(ms)[p] == ms[i]
  {
    SameMembers(ms, SortMembers(ms));
    p :| 0 <= p < |SortMembers(ms)| && SortMembers(ms)[p] == ms[i];
  }

  lemma OriginalPosition(ms: seq<Member>, p: nat) returns (i: nat)
    requires p < |SortMembers(ms)|
    ensures i < |ms| && SortMembers(ms)[p] == ms[i]
  {
    SameMembers(SortMembers(ms), ms);
    i :| 0 <= i < |ms| && ms[i] == SortMembers(ms)[p];
  }

  lemma SortedHasKeys(ms: seq<Member>)
    ensures |SortMembers(ms)| == |ms|
    ensures forall k :: HasKey(SortMembers(ms), k) <==> HasKey(ms, k)
  {
    assert |multiset(SortMembers(ms))| == |multiset(ms)|;
    forall k ensures HasKey(SortMembers(ms), k) <==> HasKey(ms, k) {
      if HasKey(ms, k) {
        var i :| 0 <= i < |ms| && ms[i].key == k;
        var p := SortedPosition(ms, i);
        assert SortMembers(ms)[p].key == k;
      }
      if HasKey(SortMembers(ms), k) {
        var p :| 0 <= p < |SortMembers(ms)| && SortMembers(ms)[p].key == k;
        var i := OriginalPosition(ms, p);
        assert ms[i].key == k;
      }
    }
  }

  /** Strictly increasing key lists with the same keys are the same list. */
  lemma {:induction false} SortedKeysUnique(a: seq<Member>, b: seq<Member>)
    requires SortedKeys(a) && SortedKeys(b)
    requires forall k :: HasKey(a, k) <==> HasKey(b, k)
    ensures |a| == |b| && forall i :: 0 <= i < |a| ==> a[i].key == b[i].key
  {
    if a == [] {
      if b != [] { assert HasKey(b, b[0].key); }
    } else {
      assert HasKey(a, a[0].key);
      var j :| 0 <= j < |b| && b[j].key == a[0].key;
      assert HasKey(b, b[0].key);
      var i :| 0 <= i < |a| && a[i].key == b[0].key;
      LessTrichotomy(a[0].key, b[0].key);
      assert a[0].key == b[0].key;
      forall k ensures HasKey(a[1..], k) <==> HasKey(b[1..], k) {
        DropFirstKey(a, k);
        DropFirstKey(b, k);
      }
      SortedKeysUnique(a[1..], b[1..]);
      forall n | 0 <= n < |a| ensures a[n].key == b[n].key {
        if n > 0 { assert a[1..][n - 1].key == b[1..][n - 1].key; }
      }
    }
  }

  lemma DropFirstKey(a: seq<Member>, k: Text)
    requires a != [] && SortedKeys(a)
    ensures HasKey(a[1..], k) <==> HasKey(a, k) && k != a[0].key
  {
    if HasKey(a[1..], k) {
      var i :| 0 <= i < |a[1..]| && a[1..][i].key == k;
      assert a[i + 1].key == k;
      LessTrichotomy(a[0].key, k);
    }
    if HasKey(a, k) && k != a[0].key {
      var i :| 0 <= i < |a| && a[i].key == k;
      assert a[1..][i - 1].key == k;
    }
  }

  /** The normalized value is the same exactly for values that are the same data. */
  lemma {:induction false} NormalizeDecidesSameData(a: Json, b: Json)
    requires WellFormed(a) && WellFormed(b)
    ensures Normalize(a) == Normalize(b) <==> SameData(a, b)
    decreases a
  {
    match a
    case Arr(xs) =>
      if b.Arr? && |xs| == |b.items| {
        forall i | 0 <= i < |xs| ensures Normalize(xs[i]) == Normalize(b.items[i]) <==> SameData(xs[i], b.items[i]) {
          NormalizeDecidesSameData(xs[i], b.items[i]);
        }
      }
      if b.Arr? { ArraysNormalize(xs, b.items); }
    case Obj(ms) =>
      if b.Obj? {
        forall i, j | 0 <= i < |ms| && 0 <= j < |b.members| && ms[i].key == b.members[j].key
          ensures Normalize(ms[i].value) == Normalize(b.members[j].value) <==> SameData(ms[i].value, b.members[j].value)
        {
          NormalizeDecidesSameData(ms[i].value, b.members[j].value);
        }
        ObjectsNormalize(ms, b.members);
      }
    case _ =>
  }

  lemma ArraysNormalize(xs: seq<Json>, ys: seq<Json>)
    requires |xs| == |ys| ==>
               forall i :: 0 <= i < |xs| ==> (Normalize(xs[i]) == Normalize(ys[i]) <==> SameData(xs[i], ys[i]))
    ensures Normalize(Arr(xs)) == Normalize(Arr(ys)) <==> SameData(Arr(xs), Arr(ys))
  {
    if |xs| == |ys| {
      forall i | 0 <= i < |xs|
        ensures NormalizeItems(xs)[i] == Normalize(xs[i]) && NormalizeItems(ys)[i] == Normalize(ys[i])
      {
        NormalizeItemsAt(xs, i);
        NormalizeItemsAt(ys, i);
      }
    } else {
      assert |NormalizeItems(xs)| != |NormalizeItems(ys)|;
    }
  }

  lemma NormalizedObject(ms: seq<Member>)
    ensures Normalize(Obj(ms)) == Obj(NormalizeMembers(SortMembers(ms)))
  {}

  lemma ObjectsSameData(ms: seq<Member>, ns: seq<Member>)
    ensures SameData(Obj(ms), Obj(ns)) <==>
              (forall k :: HasKey(ms, k) <==> HasKey(ns, k))
              && forall i, j :: 0 <= i < |ms| && 0 <= j < |ns| && ms[i].key == ns[j].key ==>
                 SameData(ms[i].value, ns[j].value)
  {
    hide HasKey;
  }

  lemma ObjectsNormalize(ms: seq<Member>, ns: seq<Member>)
    requires DistinctKeys(ms) && DistinctKeys(ns)
    requires forall i, j :: 0 <= i < |ms| && 0 <= j < |ns| && ms[i].key == ns[j].key
               ==> (Normalize(ms[i].value) == Normalize(ns[j].value) <==> SameData(ms[i].value, ns[j].value))
    ensures Normalize(Obj(ms)) == Normalize(Obj(ns)) <==> SameData(Obj(ms), Obj(ns))
  {
    hide SameData, HasKey, Normalize, NormalizeMembers, SortMembers, DistinctKeys;
    NormalizedObject(ms);
    NormalizedObject(ns);
    ObjectsSameData(ms, ns);
    var a, b := NormalizeMembers(SortMembers(ms)), NormalizeMembers(SortMembers(ns));
    if SameData(Obj(ms), Obj(ns)) {
      assert a == b by { SameDataNormalizes(ms, ns); }
    } else if a == b {
      assert false by { NormalizesSameData(ms, ns); }
    }
  }

  lemma SameDataNormalizes(ms: seq<Member>, ns: seq<Member>)
    requires DistinctKeys(ms) && DistinctKeys(ns)
    requires forall k :: HasKey(ms, k) <==> HasKey(ns, k)
    requires forall i, j :: 0 <= i < |ms| && 0 <= j < |ns| && ms[i].key == ns[j].key
               ==> Normalize(ms[i].value) == Normalize(ns[j].value)
    ensures NormalizeMembers(SortMembers(ms)) == NormalizeMembers(SortMembers(ns))
  {
    var a, b := SortMembers(ms), SortMembers(ns);
    SortMembersSorts(ms);
    SortMembersSorts(ns);
    SortedHasKeys(ms);
    SortedHasKeys(ns);
    SortedKeysUnique(a, b);
    forall p | 0 <= p < |a| ensures NormalizeMembers(a)[p] == NormalizeMembers(b)[p] {
      NormalizeMembersAt(a, p);
      NormalizeMembersAt(b, p);
      var i := OriginalPosition(ms, p);
      var j := OriginalPosition(ns, p);
    }
  }

  lemma NormalizesSameData(ms: seq<Member>, ns: seq<Member>)
    requires DistinctKeys(ms) && DistinctKeys(ns)
    requires NormalizeMembers(SortMembers(ms)) == NormalizeMembers(SortMembers(ns))
    ensures forall k :: HasKey(ms, k) <==> HasKey(ns, k)
    ensures forall i, j :: 0 <= i < |ms| && 0 <= j < |ns| && ms[i].key == ns[j].key
              ==> Normalize(ms[i].value) == Normalize(ns[j].value)
  {
    var a, b := SortMembers(ms), SortMembers(ns);
    SortMembersSorts(ms);
    SortMembersSorts(ns);
    SortedHasKeys(ms);
    SortedHasKeys(ns);
    assert |a| == |NormalizeMembers(a)| == |b|;
    forall p | 0 <= p < |a| ensures a[p].key == b[p].key && Normalize(a[p].value) == Normalize(b[p].value) {
      NormalizeMembersAt(a, p);
      NormalizeMembersAt(b, p);
    }
    SameKeysPointwise(a, b);
    forall i, j | 0 <= i < |ms| && 0 <= j < |ns| && ms[i].key == ns[j].key
      ensures Normalize(ms[i].value) == Normalize(ns[j].value)
    {
      var p := SortedPosition(ms, i);
      var q := SortedPosition(ns, j);
      LessTrichotomy(b[p].key, b[q].key);
      assert p == q;
    }
  }

  lemma SameKeysPointwise(a: seq<Member>, b: seq<Member>)
    requires |a| == |b| && forall p :: 0 <= p < |a| ==> a[p].key == b[p].key
    ensures forall k :: HasKey(a, k) <==> HasKey(b, k)
  {
    forall k ensures HasKey(a, k) <==> HasKey(b, k) {
      if HasKey(a, k) {
        var p :| 0 <= p < |a| && a[p].key == k;
        assert b[p].key == k;
      }
      if HasKey(b, k) {
        var p :| 0 <= p < |b| && b[p].key == k;
        assert a[p].key == k;
      }
    }
  }

  // ---- when there is a canonical text ------------------------------------

  /** A canonical text exists exactly for JSON trees with safe integers: nothing else is refused. */
  lemma {:induction false} CanonicalExactlyWhenEncodable(v: Json)
    ensures CanonicalJson(v).Some? <==> Encodable(v)
    decreases Size(v), 0
  {
    match v
    case Arr(items) => CanonicalItemsWhenEncodable(items);
    case Obj(members) =>
      var ms := SortMembers(members);
      CanonicalMembersWhenEncodable(ms);
      SameMembers(ms, members);
      if Encodable(v) {
        forall p | 0 <= p < |ms| ensures Encodable(ms[p].value) { assert ms[p] in members; }
      }
      if forall p :: 0 <= p < |ms| ==> Encodable(ms[p].value) {
        forall i | 0 <= i < |members| ensures Encodable(members[i].value) { assert members[i] in ms; }
      }
    case _ =>
  }

  lemma {:induction false} CanonicalItemsWhenEncodable(items: seq<Json>)
    ensures CanonicalItems(items).Some? <==> forall i :: 0 <= i < |items| ==> items[i].Hole? || Encodable(items[i])
    decreases ItemsSize(items), 1
  {
    if items != [] {
      CanonicalExactlyWhenEncodable(items[0]);
      CanonicalItemsWhenEncodable(items[1..]);
      assert forall i :: 0 < i < |items| ==> items[i] == items[1..][i - 1];
    }
  }

  lemma {:induction false} CanonicalMembersWhenEncodable(ms: seq<Member>)
    ensures CanonicalMembers(ms).Some? <==> forall i :: 0 <= i < |ms| ==> Encodable(ms[i].value)
    decreases MembersSize(ms), 1
  {
    if ms != [] {
      CanonicalExactlyWhenEncodable(ms[0].value);
      CanonicalMembersWhenEncodable(ms[1..]);
      assert forall i :: 0 < i < |ms| ==> ms[i] == ms[1..][i - 1];
    }
  }

  // ---- the text is a function of the normalized value --------------------

  lemma {:induction false} SameNormalSameText(a: Json, b: Json)
    requires Normalize(a) == Normalize(b)
    ensures CanonicalJson(a) == CanonicalJson(b)
    decreases Size(a), 0
  {
    match a
    case Arr(xs) => SameNormalSameItems(xs, b.items);
    case Obj(ms) => SameNormalSameMembers(SortMembers(ms), SortMembers(b.members));
    case _ =>
  }

  lemma {:induction false} SameNormalSameItems(xs: seq<Json>, ys: seq<Json>)
    requires NormalizeItems(xs) == NormalizeItems(ys)
    ensures CanonicalItems(xs) == CanonicalItems(ys)
    decreases ItemsSize(xs), 1
  {
    if xs != [] && ys != [] {
      assert NormalizeItems(xs)[0] == Normalize(xs[0]) && NormalizeItems(ys)[0] == Normalize(ys[0]);
      assert NormalizeItems(xs)[1..] == NormalizeItems(xs[1..]) && NormalizeItems(ys)[1..] == NormalizeItems(ys[1..]);
      SameNormalSameText(xs[0], ys[0]);
      SameNormalSameItems(xs[1..], ys[1..]);
    } else {
      assert |xs| == |NormalizeItems(xs)| == |ys|;
    }
  }

  lemma {:induction false} SameNormalSameMembers(ms: seq<Member>, ns: seq<Member>)
    requires NormalizeMembers(ms) == NormalizeMembers(ns)
    ensures CanonicalMembers(ms) == CanonicalMembers(ns)
    decreases MembersSize(ms), 1
  {
    if ms != [] && ns != [] {
      NormalizeMembersAt(ms, 0);
      NormalizeMembersAt(ns, 0);
      assert NormalizeMembers(ms)[1..] == NormalizeMembers(ms[1..])
             && NormalizeMembers(ns)[1..] == NormalizeMembers(ns[1..]);
      SameNormalSameText(ms[0].value, ns[0].value);
      SameNormalSameMembers(ms[1..], ns[1..]);
    } else {
      assert |ms| == |NormalizeMembers(ms)| == |ns|;
    }
  }

  /** The two readings agree on a value without empty slots. */
  lemma {:induction false} DenseRereads(v: Json)
    requires Dense(v)
    ensures Reread(v) == Normalize(v)
    decreases Size(v), 0
  {
    match v
    case Arr(items) =>
      assert items != [] ==> !items[0].Hole?;
      DenseItemsReread(items);
    case Obj(members) =>
      var ms := SortMembers(members);
      SameMembers(ms, members);
      forall i | 0 <= i < |ms| ensures Dense(ms[i].value) { assert ms[i] in members; }
      DenseMembersReread(ms);
    case _ =>
  }

  lemma {:induction false} DenseItemsReread(items: seq<Json>)
    requires forall i :: 0 <= i < |items| ==> Dense(items[i])
    ensures RereadItems(items) == NormalizeItems(items)
    decreases ItemsSize(items), 1
  {
    if items != [] {
      DenseRereads(items[0]);
      DenseItemsReread(items[1..]);
    }
  }

  lemma {:induction false} DenseMembersReread(ms: seq<Member>)
    requires forall i :: 0 <= i < |ms| ==> Dense(ms[i].value)
    ensures RereadMembers(ms) == NormalizeMembers(ms)
    decreases MembersSize(ms), 1
  {
    if ms != [] {
      DenseRereads(ms[0].value);
      DenseMembersReread(ms[1..]);
    }
  }

  /** Parsing inverts canonicalization of a JSON tree up to the order of members. */
  lemma RoundTrip(v: Json)
    requires IsJson(v)
    ensures CanonicalJson(v).Some?
    ensures ParseValue(CanonicalJson(v).value) == Done(Normalize(v), [])
  {
    CanonicalExactlyWhenEncodable(v);
    ParseCanonical(v, [], false);
    DenseRereads(v);
    assert CanonicalJson(v).value + [] == CanonicalJson(v).value;
  }

  /** Two JSON trees have the same canonical text exactly when they are the same data. */
  lemma CanonicalTextDecidesSameData(a: Json, b: Json)
    requires WellFormed(a) && WellFormed(b) && IsJson(a) && IsJson(b)
    ensures CanonicalJson(a) == CanonicalJson(b) <==> SameData(a, b)
  {
    RoundTrip(a);
    RoundTrip(b);
    NormalizeDecidesSameData(a, b);
    if Normalize(a) == Normalize(b) { SameNormalSameText(a, b); }
  }

  // ---- sparse arrays ----------------------------------------------------------

  lemma {:induction false} ParsedIsDense(s: Text)
    ensures ReadValue(s, false).Done? ==> Dense(ReadValue(s, false).value)
    decreases |s|, 1
  {
    hide NumberOf, NumberRun;
    if [LBRACKET] <= s { ParsedItemsAreDense(s[1..]); }
    if [LBRACE] <= s { ParsedMembersAreDense(s[1..]); }
  }

  lemma {:induction false} ParsedItemsAreDense(s: Text)
    ensures var r := ReadItems(s, false); r.Done? ==> forall i :: 0 <= i < |r.value| ==> Dense(r.value[i])
    decreases |s|, 2
  {
    hide ReadValue;
    ParsedIsDense(s);
    var v := ReadValue(s, false);
    if v.Done? && v.rest != [] { ParsedItemsAreDense(v.rest[1..]); }
  }

  lemma {:induction false} ParsedMembersAreDense(s: Text)
    ensures var r := ReadMembers(s, false); r.Done? ==> forall i :: 0 <= i < |r.value| ==> Dense(r.value[i].value)
    decreases |s|, 2
  {
    hide ReadValue, ParseString;
    if s != [] {
      var k := ParseString(s[1..]);
      if k.Done? && k.rest != [] {
        ParsedIsDense(k.rest[1..]);
        var v := ReadValue(k.rest[1..], false);
        if v.Done? && v.rest != [] { ParsedMembersAreDense(v.rest[1..]); }
      }
    }
  }

  /** Sorting members keeps every empty slot. */
  lemma {:induction false} NormalIsDense(v: Json)
    requires Dense(Normalize(v))
    ensures Dense(v)
    decreases v
  {
    match v
    case Arr(items) =>
      forall i | 0 <= i < |items| ensures Dense(items[i]) {
        NormalizeItemsAt(items, i);
        NormalIsDense(items[i]);
      }
    case Obj(members) =>
      forall i | 0 <= i < |members| ensures Dense(members[i].value) {
        var p := SortedPosition(members, i);
        NormalizeMembersAt(SortMembers(members), p);
        NormalIsDense(members[i].value);
      }
    case _ =>
  }

  /** The canonical text of what passes the gate reads back exactly when no array has an empty slot. */
  lemma RoundTripExactlyWhenDense(v: Json)
    requires Encodable(v)
    ensures CanonicalJson(v).Some?
    ensures ParseValue(CanonicalJson(v).value) == Done(Normalize(v), []) <==> Dense(v)
  {
    CanonicalExactlyWhenEncodable(v);
    if Dense(v) { RoundTrip(v); }
    ParsedIsDense(CanonicalJson(v).value);
    if Dense(Normalize(v)) { NormalIsDense(v); }
  }

  /** With empty slots the text neither is JSON nor tells values apart: `[ ,1]` is written `[,1]`, and an array of
      one empty slot like the empty array. */
  lemma SparseArraysFail()
    ensures var sparse := Arr([Hole, Num(Int(1))]);
            Encodable(sparse) && CanonicalJson(sparse) == Some([LBRACKET, COMMA, 49, RBRACKET])
            && ParseValue(CanonicalJson(sparse).value).Fail?
    ensures CanonicalJson(Arr([Hole])) == CanonicalJson(Arr([])) && !SameData(Arr([Hole]), Arr([]))
  {
    SparseText();
    SparseUnread([LBRACKET, COMMA, 49, RBRACKET]);
    EmptyBody([Hole]);
    EmptyBody([]);
  }

  lemma SparseUnread(s: Text)
    requires s == [LBRACKET, COMMA, 49, RBRACKET]
    ensures ParseValue(s).Fail?
  {
    hide ReadMembers, ParseNumber, ParseString;
    assert s[1..] == [COMMA, 49, RBRACKET];
    NotAnItem(s[1..]);
    assert ReadItems(s[1..], false).Fail?;
    hide ReadItems;
    assert NULL_TEXT[0] == 110 && TRUE_TEXT[0] == 116 && FALSE_TEXT[0] == 102;
    assert s[1] == COMMA;
  }

  lemma SparseText()
    ensures CanonicalJson(Arr([Hole, Num(Int(1))])) == Some([LBRACKET, COMMA, 49, RBRACKET])
  {
    var one := Num(Int(1));
    assert CanonicalJson(one) == Some([49]);
    ItemsStep(one, []);
    ItemsStep(Hole, [one]);
    assert [Hole] + [one] == [Hole, one] && [one] + [] == [one];
    var texts: seq<Text> := [[], [49]];
    var tail: seq<Text> := [[49]];
    assert tail + [] == tail && [[]] + tail == texts;
    assert CanonicalItems([Hole, one]).value == texts;
    SparseJoin(texts);
  }

  lemma SparseJoin(texts: seq<Text>)
    requires texts == [[], [49]]
    ensures [LBRACKET] + Join(texts) + [RBRACKET] == [LBRACKET, COMMA, 49, RBRACKET]
  {
    assert texts[1..] == [[49]] && Join(texts) == [COMMA, 49];
  }

  lemma ItemsStep(x: Json, rest: seq<Json>)
    ensures CanonicalItems([x] + rest) ==
            if SlotText(x).Some? && CanonicalItems(rest).Some?
            then Some([SlotText(x).value] + CanonicalItems(rest).value)
            else None
    ensures CanonicalItems([]) == Some([])
  {
    assert ([x] + rest)[1..] == rest;
  }

  lemma NotAnItem(s: Text)
    requires s != [] && s[0] == COMMA
    ensures ParseValue(s).Fail?
  {
    assert NULL_TEXT[0] == 110 && TRUE_TEXT[0] == 116 && FALSE_TEXT[0] == 102;
    assert NumberRun(s) == 0 && s[..0] == [];
  }

  // ---- what two sparse texts have in common -------------------------------------------------

  /** Every array of one empty slot taken for the empty array. */
  function Plugged(v: Json): Json
    decreases v
  {
    match v
    case Arr(items) =>
      if items == [Hole] then Arr([])
      else Arr(seq(|items|, i requires 0 <= i < |items| => Plugged(items[i])))
    case Obj(members) => Obj(PluggedMembers(members))
    case _ => v
  }

  function PluggedMembers(ms: seq<Member>): (r: seq<Member>)
    ensures |r| == |ms|
    ensures forall i :: 0 <= i < |ms| ==> r[i] == Member(ms[i].key, Plugged(ms[i].value))
    decreases ms
  {
    seq(|ms|, i requires 0 <= i < |ms| => Member(ms[i].key, Plugged(ms[i].value)))
  }

  lemma PluggedCons(m: Member, ms: seq<Member>)
    ensures PluggedMembers([m] + ms) == [Member(m.key, Plugged(m.value))] + PluggedMembers(ms)
  {
    hide Plugged;
  }

  /** Plugging changes values, so it commutes with sorting by key. */
  lemma {:induction false} InsertPlugged(m: Member, ms: seq<Member>)
    ensures PluggedMembers(Insert(m, ms)) == Insert(Member(m.key, Plugged(m.value)), PluggedMembers(ms))
  {
    hide Plugged, PluggedMembers, Size, MembersSize;
    if ms != [] && Less(ms[0].key, m.key) {
      InsertPlugged(m, ms[1..]);
      assert ms == [ms[0]] + ms[1..];
      PluggedCons(ms[0], ms[1..]);
      PluggedCons(ms[0], Insert(m, ms[1..]));
      InsertAfter(Member(m.key, Plugged(m.value)), Member(ms[0].key, Plugged(ms[0].value)), PluggedMembers(ms[1..]));
    } else {
      PluggedCons(m, ms);
    }
  }

  lemma InsertAfter(m: Member, first: Member, rest: seq<Member>)
    requires Less(first.key, m.key)
    ensures Insert(m, [first] + rest) == [first] + Insert(m, rest)
  {
    assert ([first] + rest)[1..] == rest;
  }

  lemma {:induction false} SortPlugged(ms: seq<Member>)
    ensures SortMembers(PluggedMembers(ms)) == PluggedMembers(SortMembers(ms))
  {
    hide Plugged, Insert;
    if ms != [] {
      SortPlugged(ms[1..]);
      InsertPlugged(ms[0], SortMembers(ms[1..]));
      assert PluggedMembers(ms)[1..] == PluggedMembers(ms[1..]);
    }
  }

  lemma {:induction false} RereadItemsAt(items: seq<Json>, i: nat)
    requires i < |items|
    ensures RereadItems(items)[i] == Reread(items[i])
  {
    if i > 0 { RereadItemsAt(items[1..], i - 1); }
  }

  lemma {:induction false} RereadMembersAt(ms: seq<Member>, i: nat)
    requires i < |ms|
    ensures RereadMembers(ms)[i] == Member(ms[i].key, Reread(ms[i].value))
  {
    if i > 0 { RereadMembersAt(ms[1..], i - 1); }
  }

  lemma SameItemsRead(items: seq<Json>, ys: seq<Json>)
    requires |items| == |ys| && forall i :: 0 <= i < |items| ==> Reread(items[i]) == Normalize(ys[i])
    ensures RereadItems(items) == NormalizeItems(ys)
  {
    hide Reread, Normalize;
    forall i | 0 <= i < |items| ensures RereadItems(items)[i] == NormalizeItems(ys)[i] {
      RereadItemsAt(items, i);
      NormalizeItemsAt(ys, i);
    }
  }

  lemma SameMembersRead(ms: seq<Member>, ns: seq<Member>)
    requires |ms| == |ns|
    requires forall i :: 0 <= i < |ms| ==> ms[i].key == ns[i].key && Reread(ms[i].value) == Normalize(ns[i].value)
    ensures RereadMembers(ms) == NormalizeMembers(ns)
  {
    hide Reread, Normalize;
    forall i | 0 <= i < |ms| ensures RereadMembers(ms)[i] == NormalizeMembers(ns)[i] {
      RereadMembersAt(ms, i);
      NormalizeMembersAt(ns, i);
    }
  }

  /** The sparse reading of a text is the plugged value, its keys sorted. */
  lemma {:induction false} RereadIsPlugged(v: Json)
    ensures Reread(v) == Normalize(Plugged(v))
    decreases v
  {
    hide RereadItems, RereadMembers, NormalizeItems, NormalizeMembers, SortMembers, PluggedMembers, Size;
    match v
    case Arr(items) =>
      if items == [Hole] {
        NothingNormalized();
      } else {
        forall i | 0 <= i < |items| ensures Reread(items[i]) == Normalize(Plugged(items[i])) {
          RereadIsPlugged(items[i]);
        }
        SameItemsRead(items, Plugged(v).items);
      }
    case Obj(members) =>
      var ms := SortMembers(members);
      SortPlugged(members);
      forall p | 0 <= p < |ms| ensures Reread(ms[p].value) == Normalize(Plugged(ms[p].value)) {
        var i := OriginalPosition(members, p);
        RereadIsPlugged(members[i].value);
      }
      SameMembersRead(ms, PluggedMembers(ms));
    case _ =>
  }

  lemma NothingNormalized()
    ensures NormalizeItems([]) == []
  {}

  lemma {:induction false} PluggedIsWellFormed(v: Json)
    requires WellFormed(v)
    ensures WellFormed(Plugged(v))
    decreases v
  {
    match v
    case Arr(items) =>
      if items != [Hole] {
        forall i | 0 <= i < |items| ensures WellFormed(Plugged(items[i])) { PluggedIsWellFormed(items[i]); }
      }
    case Obj(members) =>
      forall i | 0 <= i < |members| ensures WellFormed(Plugged(members[i].value)) {
        PluggedIsWellFormed(members[i].value);
      }
    case _ =>
  }

  /** Plugging leaves the text as it is. */
  lemma {:induction false} PluggedSameText(v: Json)
    ensures CanonicalJson(Plugged(v)) == CanonicalJson(v)
    decreases v
  {
    match v
    case Arr(items) =>
      if items == [Hole] {
        EmptyBody(items);
        EmptyBody([]);
      } else {
        var ys := Plugged(v).items;
        forall i | 0 <= i < |items| ensures SlotText(ys[i]) == SlotText(items[i]) {
          PluggedSameText(items[i]);
          PluggedSlot(items[i]);
        }
        SameSlotsSameTexts(items, ys);
      }
    case Obj(members) =>
      var ms := SortMembers(members);
      SortPlugged(members);
      forall p | 0 <= p < |ms| ensures CanonicalJson(Plugged(ms[p].value)) == CanonicalJson(ms[p].value) {
        var i := OriginalPosition(members, p);
        PluggedSameText(members[i].value);
      }
      SameValuesSameTexts(ms, PluggedMembers(ms));
    case _ =>
  }

  lemma PluggedSlot(v: Json)
    ensures Plugged(v).Hole? <==> v.Hole?
  {}

  lemma {:induction false} SameSlotsSameTexts(xs: seq<Json>, ys: seq<Json>)
    requires |xs| == |ys| && forall i :: 0 <= i < |xs| ==> SlotText(xs[i]) == SlotText(ys[i])
    ensures CanonicalItems(xs) == CanonicalItems(ys)
  {
    if xs != [] { SameSlotsSameTexts(xs[1..], ys[1..]); }
  }

  lemma {:induction false} SameValuesSameTexts(ms: seq<Member>, ns: seq<Member>)
    requires |ms| == |ns|
    requires forall i :: 0 <= i < |ms| ==>
               ms[i].key == ns[i].key && CanonicalJson(ms[i].value) == CanonicalJson(ns[i].value)
    ensures CanonicalMembers(ms) == CanonicalMembers(ns)
  {
    if ms != [] { SameValuesSameTexts(ms[1..], ns[1..]); }
  }

  /** What passes the gate has the same canonical text exactly when it is the same data, once every array of one empty
      slot is taken for the empty array: this is all that two texts can hide. */
  lemma CanonicalTextDecidesSparseData(a: Json, b: Json)
    requires WellFormed(a) && WellFormed(b) && Encodable(a) && Encodable(b)
    ensures CanonicalJson(a) == CanonicalJson(b) <==> SameData(Plugged(a), Plugged(b))
  {
    hide CanonicalJson, Reread, Normalize, Plugged, SameData, WellFormed;
    CanonicalExactlyWhenEncodable(a);
    CanonicalExactlyWhenEncodable(b);
    var x, y := CanonicalJson(a).value, CanonicalJson(b).value;
    ParseCanonical(a, [], true);
    ParseCanonical(b, [], true);
    assert x + [] == x && y + [] == y;
    RereadIsPlugged(a);
    RereadIsPlugged(b);
    PluggedIsWellFormed(a);
    PluggedIsWellFormed(b);
    NormalizeDecidesSameData(Plugged(a), Plugged(b));
    PluggedSameText(a);
    PluggedSameText(b);
    if SameData(Plugged(a), Plugged(b)) { SameNormalSameText(Plugged(a), Plugged(b)); }
  }

  // ---- the fingerprint preimage -------------------------------------------

  predicate NoControl(t: Text) {
    forall i :: 0 <= i < |t| ==> t[i] >= 32
  }

  lemma NoControlConcat(a: Text, b: Text)
    requires NoControl(a) && NoControl(b)
    ensures NoControl(a + b)
  {}

  lemma {:induction false} EscapeNoControl(s: Text)
    ensures NoControl(Escape(s))
  {
    if s == [] {
    } else if StartsWithPair(s) {
      EscapeNoControl(s[2..]);
      NoControlConcat(s[..2], Escape(s[2..]));
    } else {
      EscapeNoControl(s[1..]);
      EscapedUnitShape(s[0]);
      NoControlConcat(EscapeUnit(s[0]), Escape(s[1..]));
    }
  }

  lemma {:induction false} JoinNoControl(texts: seq<Text>)
    requires forall i :: 0 <= i < |texts| ==> NoControl(texts[i])
    ensures NoControl(Join(texts))
  {
    if |texts| > 1 {
      JoinNoControl(texts[1..]);
      NoControlConcat(texts[0] + [COMMA], Join(texts[1..]));
    }
  }

  lemma QuoteNoControl(s: Text)
    ensures NoControl(QuoteText(s))
  {
    EscapeNoControl(s);
  }

  lemma NumberNoControl(n: Number)
    requires Safe(n)
    ensures NoControl(CanonicalNumber(n).value)
  {
    if n.Int? { NumberOfInteger(n.n); }
  }

  lemma BracketedNoControl(left: CodeUnit, body: Text, right: CodeUnit)
    requires left >= 32 && right >= 32 && NoControl(body)
    ensures NoControl([left] + body + [right])
  {}

  /** No raw control character, in particular no line feed, occurs in a canonical text. */
  lemma {:induction false} CanonicalNoControl(v: Json)
    requires CanonicalJson(v).Some?
    ensures NoControl(CanonicalJson(v).value)
    decreases Size(v), 0
  {
    match v
    case Str(s) => QuoteNoControl(s);
    case Num(n) => NumberNoControl(n);
    case Arr(items) =>
      hide NoControl, Join, CanonicalItems;
      ItemsNoControl(items);
      JoinNoControl(CanonicalItems(items).value);
      BracketedNoControl(LBRACKET, Join(CanonicalItems(items).value), RBRACKET);
    case Obj(members) =>
      hide NoControl, Join, CanonicalMembers, SortMembers;
      MembersNoControl(SortMembers(members));
      JoinNoControl(CanonicalMembers(SortMembers(members)).value);
      BracketedNoControl(LBRACE, Join(CanonicalMembers(SortMembers(members)).value), RBRACE);
    case _ =>
  }

  lemma {:induction false} ItemsNoControl(items: seq<Json>)
    requires CanonicalItems(items).Some?
    ensures forall i :: 0 <= i < |items| ==> NoControl(CanonicalItems(items).value[i])
    decreases ItemsSize(items), 1
  {
    if items != [] {
      if !items[0].Hole? { CanonicalNoControl(items[0]); }
      ItemsNoControl(items[1..]);
    }
  }

  lemma {:induction false} MembersNoControl(ms: seq<Member>)
    requires CanonicalMembers(ms).Some?
    ensures forall i :: 0 <= i < |ms| ==> NoControl(CanonicalMembers(ms).value[i])
    decreases MembersSize(ms), 1
  {
    if ms != [] {
      QuoteNoControl(ms[0].key);
      CanonicalNoControl(ms[0].value);
      MembersNoControl(ms[1..]);
      NoControlConcat(QuoteText(ms[0].key) + [COLON], CanonicalJson(ms[0].value).value);
    }
  }

  /** The last line feed splits a preimage, whatever the key contains. */
  lemma SplitAtLastNewline(k1: Text, b1: Text, k2: Text, b2: Text)
    requires k1 + [NEWLINE] + b1 == k2 + [NEWLINE] + b2
    requires NoControl(b1) && NoControl(b2)
    ensures k1 == k2 && b1 == b2
  {
    var t1, t2 := k1 + [NEWLINE] + b1, k2 + [NEWLINE] + b2;
    assert t1[|k1|] == NEWLINE && t2[|k2|] == NEWLINE;
    if |k1| < |k2| {
      assert false;
    } else if |k2| < |k1| {
      assert false;
    }
    assert k1 == t1[..|k1|] && k2 == t2[..|k2|];
    assert b1 == t1[|k1| + 1..] && b2 == t2[|k2| + 1..];
  }

  /** Equal preimages: the same key and the same request data. Nothing else collides before hashing. */
  lemma PreimageDecidesRequest(k1: Text, r1: Json, k2: Text, r2: Json)
    requires WellFormed(r1) && WellFormed(r2) && IsJson(r1) && IsJson(r2)
    ensures Preimage(k1, r1) == Preimage(k2, r2) <==> k1 == k2 && SameData(r1, r2)
  {
    RoundTrip(r1);
    RoundTrip(r2);
    CanonicalTextDecidesSameData(r1, r2);
    CanonicalNoControl(r1);
    CanonicalNoControl(r2);
    if Preimage(k1, r1) == Preimage(k2, r2) {
      SplitAtLastNewline(k1, CanonicalJson(r1).value, k2, CanonicalJson(r2).value);
    }
  }
}
