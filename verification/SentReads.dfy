// The body that is sent reads back as the value it was made of, an empty slot as `null`.
module SentReads {
  import opened Wrappers
  import opened Texts
  import opened JsonValue
  import opened Canonical
  import opened CanonicalProofs
  import opened SentBody

  /** The tree with `null` in every empty slot. */
  function Filled(v: Json): Json
    decreases Size(v)
  {
    match v
    case Arr(items) => Arr(FilledItems(items))
    case Obj(members) => Obj(FilledMembers(members))
    case Hole => Null
    case _ => v
  }

  function FilledItems(items: seq<Json>): (r: seq<Json>)
    ensures |r| == |items|
    decreases ItemsSize(items)
  {
    if items == [] then [] else [Filled(items[0])] + FilledItems(items[1..])
  }

  function FilledMembers(ms: seq<Member>): (r: seq<Member>)
    ensures |r| == |ms|
    decreases MembersSize(ms)
  {
    if ms == [] then [] else [Member(ms[0].key, Filled(ms[0].value))] + FilledMembers(ms[1..])
  }

  lemma {:induction false} DenseIsFilled(v: Json)
    requires Dense(v)
    ensures Filled(v) == v
    decreases Size(v), 0
  {
    match v
    case Arr(items) => DenseItemsAreFilled(items);
    case Obj(members) => DenseMembersAreFilled(members);
    case _ =>
  }

  lemma {:induction false} DenseItemsAreFilled(items: seq<Json>)
    requires forall i :: 0 <= i < |items| ==> Dense(items[i])
    ensures FilledItems(items) == items
    decreases ItemsSize(items), 1
  {
    if items != [] {
      DenseIsFilled(items[0]);
      DenseItemsAreFilled(items[1..]);
    }
  }

  lemma {:induction false} DenseMembersAreFilled(ms: seq<Member>)
    requires forall i :: 0 <= i < |ms| ==> Dense(ms[i].value)
    ensures FilledMembers(ms) == ms
    decreases MembersSize(ms), 1
  {
    if ms != [] {
      DenseIsFilled(ms[0].value);
      DenseMembersAreFilled(ms[1..]);
    }
  }

  // ---- reading back ---------------------------------------------------------------------------------------

  lemma SentFirst(v: Json)
    ensures Stringify(v) != [] && Stringify(v)[0] != RBRACKET
  {
    if v.Num? && Safe(v.num) && v.num.Int? {
      assert IsDigit(Integer(v.num.n)[0]) || Integer(v.num.n)[0] == MINUS;
    }
  }

  lemma SentLeaf(v: Json, rest: Text)
    requires v.Null? || v.Bool? || v.Str? || v.Hole?
    ensures ReadValue(Stringify(v) + rest, false) == Done(Filled(v), rest)
  {
    ParseLeaf(Filled(v), rest, false);
  }

  /** Reading a sent text consumes exactly that text. */
  lemma {:induction false} ReadSent(v: Json, rest: Text)
    requires (Encodable(v) || v.Hole?) && EndsNumber(rest)
    ensures ReadValue(Stringify(v) + rest, false) == Done(Filled(v), rest)
    decreases Size(v), 1
  {
    match v
    case Num(n) => ParsePrintedNumber(n, rest, false);
    case Arr(items) =>
      var body := Join(StringifyItems(items));
      CompoundText(LBRACKET, body, RBRACKET, rest);
      if items == [] {
        ParseEmpty(rest, false);
      } else {
        ReadSentItems(items, rest);
        SentItemsStart(items);
        ParseBracketed(body + ([RBRACKET] + rest), FilledItems(items), rest, false);
      }
    case Obj(members) =>
      var body := Join(StringifyMembers(members));
      CompoundText(LBRACE, body, RBRACE, rest);
      if members == [] {
        ParseEmpty(rest, false);
      } else {
        ReadSentMembers(members, rest);
        SentMembersStart(members);
        ParseBraced(body + ([RBRACE] + rest), FilledMembers(members), rest, false);
      }
    case _ => SentLeaf(v, rest);
  }

  lemma SentItemsStart(items: seq<Json>)
    requires items != []
    ensures var body := Join(StringifyItems(items)); body != [] && body[0] != RBRACKET
  {
    SentFirst(items[0]);
    JoinFirst(StringifyItems(items));
  }

  lemma SentMembersStart(ms: seq<Member>)
    requires ms != []
    ensures var body := Join(StringifyMembers(ms)); body != [] && body[0] == QUOTE
  {
    var texts := StringifyMembers(ms);
    assert texts[0] == QuoteText(ms[0].key) + [COLON] + Stringify(ms[0].value);
    JoinFirst(texts);
  }

  lemma {:induction false} ReadSentItems(items: seq<Json>, rest: Text)
    requires items != [] && forall i :: 0 <= i < |items| ==> Encodable(items[i]) || items[i].Hole?
    ensures ReadItems(Join(StringifyItems(items)) + ([RBRACKET] + rest), false) == Done(FilledItems(items), rest)
    decreases ItemsSize(items), 2
  {
    var texts := StringifyItems(items);
    var tail, head := [RBRACKET] + rest, Stringify(items[0]);
    JoinStep(texts, tail);
    assert texts == [head] + StringifyItems(items[1..]);
    assert FilledItems(items) == [Filled(items[0])] + FilledItems(items[1..]);
    if |items| == 1 {
      ReadSent(items[0], tail);
      ItemsEnd(head + tail, Filled(items[0]), rest, false);
      assert FilledItems(items) == [Filled(items[0])];
    } else {
      ReadSentItems(items[1..], rest);
      assert texts[1..] == StringifyItems(items[1..]);
      var more := Join(texts[1..]) + tail;
      ReadSent(items[0], [COMMA] + more);
      ItemsGoOn(head + ([COMMA] + more), Filled(items[0]), more, FilledItems(items[1..]), rest, false);
    }
  }

  lemma {:induction false} ReadSentMembers(ms: seq<Member>, rest: Text)
    requires ms != [] && forall i :: 0 <= i < |ms| ==> Encodable(ms[i].value)
    ensures ReadMembers(Join(StringifyMembers(ms)) + ([RBRACE] + rest), false) == Done(FilledMembers(ms), rest)
    decreases MembersSize(ms), 2
  {
    var texts := StringifyMembers(ms);
    var tail, head := [RBRACE] + rest, Stringify(ms[0].value);
    JoinStep(texts, tail);
    var text, v := QuoteText(ms[0].key) + [COLON] + head, Filled(ms[0].value);
    assert texts == [text] + StringifyMembers(ms[1..]);
    assert FilledMembers(ms) == [Member(ms[0].key, v)] + FilledMembers(ms[1..]);
    if |ms| == 1 {
      ReadSent(ms[0].value, tail);
      MembersEnd(ms[0].key, head, v, rest, false);
      assert FilledMembers(ms) == [Member(ms[0].key, v)];
    } else {
      ReadSentMembers(ms[1..], rest);
      assert texts[1..] == StringifyMembers(ms[1..]);
      var more := Join(texts[1..]) + tail;
      ReadSent(ms[0].value, [COMMA] + more);
      MembersGoOn(ms[0].key, head, v, more, FilledMembers(ms[1..]), rest, false);
    }
  }

  /** What `JSON.stringify` makes of a tree that `canonicalJson` encodes is the whole of a JSON text, and it reads back
      to the tree: the members in their own order, `null` for an empty slot. */
  lemma SentReadsBack(v: Json)
    requires Encodable(v)
    ensures ParseValue(Stringify(v)) == Done(Filled(v), [])
    ensures Dense(v) ==> Filled(v) == v
  {
    ReadSent(v, []);
    assert Stringify(v) + [] == Stringify(v);
    if Dense(v) { DenseIsFilled(v); }
  }
}
