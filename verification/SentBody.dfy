// The body that is sent against the canonical text that is measured: `JSON.stringify` writes an empty slot as
// `null`, `canonicalJson` as nothing.
module SentBody {
  import opened Wrappers
  import opened Texts
  import opened JsonValue
  import opened Canonical

  /** Bytes of the text in UTF-8; a surrogate without its partner becomes U+FFFD. */
  function Utf8Length(s: Text): nat {
    if s == [] then 0
    else if IsHigh(s[0]) && |s| > 1 && IsLow(s[1]) then 4 + Utf8Length(s[2..])
    else (if s[0] < 0x80 then 1 else if s[0] < 0x800 then 2 else 3) + Utf8Length(s[1..])
  }

  /** `JSON.stringify` of a tree that `canonicalJson` can encode: members in their own order. */
  function Stringify(v: Json): Text
    decreases v
  {
    match v
    case Null => NULL_TEXT
    case Bool(b) => if b then TRUE_TEXT else FALSE_TEXT
    case Num(n) => if Safe(n) then CanonicalNumber(n).value else NULL_TEXT
    case Str(s) => QuoteText(s)
    case Arr(items) => [LBRACKET] + Join(StringifyItems(items)) + [RBRACKET]
    case Obj(members) => [LBRACE] + Join(StringifyMembers(members)) + [RBRACE]
    case Hole => NULL_TEXT
    case Other => NULL_TEXT
  }

  function StringifyItems(items: seq<Json>): (r: seq<Text>)
    ensures |r| == |items|
    decreases items
  {
    if items == [] then [] else [Stringify(items[0])] + StringifyItems(items[1..])
  }

  function StringifyMembers(ms: seq<Member>): (r: seq<Text>)
    ensures |r| == |ms|
    decreases ms
  {
    if ms == [] then [] else [QuoteText(ms[0].key) + [COLON] + Stringify(ms[0].value)] + StringifyMembers(ms[1..])
  }

  /** The empty slots of a tree. */
  function Holes(v: Json): nat
    decreases v
  {
    match v
    case Arr(items) => ItemHoles(items)
    case Obj(members) => MemberHoles(members)
    case Hole => 1
    case _ => 0
  }

  function ItemHoles(items: seq<Json>): nat
    decreases items
  {
    if items == [] then 0 else Holes(items[0]) + ItemHoles(items[1..])
  }

  function MemberHoles(ms: seq<Member>): nat
    decreases ms
  {
    if ms == [] then 0 else Holes(ms[0].value) + MemberHoles(ms[1..])
  }

  lemma {:induction false} HolesAndDense(v: Json)
    ensures Holes(v) == 0 <==> Dense(v)
    decreases v
  {
    match v
    case Arr(items) => ItemHolesAndDense(items);
    case Obj(members) => MemberHolesAndDense(members);
    case _ =>
  }

  lemma {:induction false} ItemHolesAndDense(items: seq<Json>)
    ensures ItemHoles(items) == 0 <==> forall i :: 0 <= i < |items| ==> Dense(items[i])
    decreases items
  {
    if items != [] {
      HolesAndDense(items[0]);
      ItemHolesAndDense(items[1..]);
      assert forall i :: 0 < i < |items| ==> items[i] == items[1..][i - 1];
    }
  }

  lemma {:induction false} MemberHolesAndDense(ms: seq<Member>)
    ensures MemberHoles(ms) == 0 <==> forall i :: 0 <= i < |ms| ==> Dense(ms[i].value)
    decreases ms
  {
    if ms != [] {
      HolesAndDense(ms[0].value);
      MemberHolesAndDense(ms[1..]);
      assert forall i :: 0 < i < |ms| ==> ms[i] == ms[1..][i - 1];
    }
  }

  // ---- bytes ------------------------------------------------------------------------------

  lemma AsciiFirst(c: CodeUnit, s: Text)
    requires c < 0x80
    ensures Utf8Length([c] + s) == 1 + Utf8Length(s)
  {
    assert ([c] + s)[1..] == s;
  }

  /** Texts join byte by byte unless the second begins with a low surrogate. */
  lemma {:induction false} Utf8Concat(a: Text, b: Text)
    requires b == [] || !IsLow(b[0])
    ensures Utf8Length(a + b) == Utf8Length(a) + Utf8Length(b)
  {
    if a == [] {
      assert a + b == b;
    } else if IsHigh(a[0]) && |a| > 1 && IsLow(a[1]) {
      Utf8Concat(a[2..], b);
      assert (a + b)[2..] == a[2..] + b;
    } else {
      Utf8Concat(a[1..], b);
      assert (a + b)[1..] == a[1..] + b;
    }
  }

  lemma BracketBytes(left: CodeUnit, body: Text, right: CodeUnit)
    requires left < 0x80 && right < 0x80
    ensures Utf8Length([left] + body + [right]) == 2 + Utf8Length(body)
  {
    AsciiFirst(left, body);
    AsciiFirst(right, []);
    assert [right] + [] == [right];
    Utf8Concat([left] + body, [right]);
  }

  function TotalBytes(texts: seq<Text>): nat {
    if texts == [] then 0 else Utf8Length(texts[0]) + TotalBytes(texts[1..])
  }

  lemma {:induction false} JoinBytes(texts: seq<Text>)
    ensures Utf8Length(Join(texts)) == TotalBytes(texts) + if texts == [] then 0 else |texts| - 1
  {
    if |texts| > 1 {
      JoinBytes(texts[1..]);
      AsciiFirst(COMMA, Join(texts[1..]));
      Utf8Concat(texts[0], [COMMA] + Join(texts[1..]));
      assert texts[0] + [COMMA] + Join(texts[1..]) == texts[0] + ([COMMA] + Join(texts[1..]));
    } else if |texts| == 1 {
      assert texts[1..] == [];
    }
  }

  lemma MemberBytes(key: Text, value: Text)
    ensures Utf8Length(QuoteText(key) + [COLON] + value) == Utf8Length(QuoteText(key)) + 1 + Utf8Length(value)
  {
    AsciiFirst(COLON, value);
    Utf8Concat(QuoteText(key), [COLON] + value);
    assert QuoteText(key) + [COLON] + value == QuoteText(key) + ([COLON] + value);
  }

  /** The bytes of a tree when an empty slot takes `hole` bytes, whatever the order of members. */
  function Bytes(v: Json, hole: nat): nat
    decreases v
  {
    match v
    case Arr(items) => 2 + ItemBytes(items, hole) + if items == [] then 0 else |items| - 1
    case Obj(members) => 2 + MembersBytes(members, hole) + if members == [] then 0 else |members| - 1
    case Hole => hole
    case Null => 4
    case Bool(b) => if b then 4 else 5
    case Num(n) => if Safe(n) then Utf8Length(CanonicalNumber(n).value) else 4
    case Str(s) => Utf8Length(QuoteText(s))
    case Other => 4
  }

  function ItemBytes(items: seq<Json>, hole: nat): nat
    decreases items
  {
    if items == [] then 0 else Bytes(items[0], hole) + ItemBytes(items[1..], hole)
  }

  function MembersBytes(ms: seq<Member>, hole: nat): nat
    decreases ms
  {
    if ms == [] then 0
    else Utf8Length(QuoteText(ms[0].key)) + 1 + Bytes(ms[0].value, hole) + MembersBytes(ms[1..], hole)
  }

  lemma {:induction false} InsertBytes(m: Member, ms: seq<Member>, hole: nat)
    ensures MembersBytes(Insert(m, ms), hole) == MembersBytes([m] + ms, hole)
  {
    assert ([m] + ms)[1..] == ms;
    if ms != [] && Less(ms[0].key, m.key) {
      InsertBytes(m, ms[1..], hole);
      assert ([m] + ms[1..])[1..] == ms[1..];
      assert ([ms[0]] + Insert(m, ms[1..]))[1..] == Insert(m, ms[1..]);
    }
  }

  lemma {:induction false} SortBytes(ms: seq<Member>, hole: nat)
    ensures MembersBytes(SortMembers(ms), hole) == MembersBytes(ms, hole) && |SortMembers(ms)| == |ms|
  {
    assert |multiset(SortMembers(ms))| == |multiset(ms)|;
    if ms != [] {
      SortBytes(ms[1..], hole);
      InsertBytes(ms[0], SortMembers(ms[1..]), hole);
      assert ([ms[0]] + SortMembers(ms[1..]))[1..] == SortMembers(ms[1..]);
    }
  }

  lemma LiteralBytes()
    ensures Utf8Length(NULL_TEXT) == 4 && Utf8Length(TRUE_TEXT) == 4 && Utf8Length(FALSE_TEXT) == 5
  {
    PlainBytes(NULL_TEXT);
    PlainBytes(TRUE_TEXT);
    PlainBytes(FALSE_TEXT);
  }

  lemma {:induction false} PlainBytes(s: Text)
    requires forall i :: 0 <= i < |s| ==> s[i] < 0x80
    ensures Utf8Length(s) == |s|
  {
    if s != [] { PlainBytes(s[1..]); }
  }

  // ---- the canonical text ------------------------------------------------------------------

  lemma {:induction false} CanonicalBytes(v: Json)
    requires CanonicalJson(v).Some?
    ensures Utf8Length(CanonicalJson(v).value) == Bytes(v, 0)
    decreases Size(v), 0
  {
    LiteralBytes();
    match v
    case Arr(items) =>
      CanonicalItemBytes(items);
      JoinBytes(CanonicalItems(items).value);
      BracketBytes(LBRACKET, Join(CanonicalItems(items).value), RBRACKET);
    case Obj(members) =>
      var ms := SortMembers(members);
      CanonicalMemberBytes(ms);
      SortBytes(members, 0);
      JoinBytes(CanonicalMembers(ms).value);
      BracketBytes(LBRACE, Join(CanonicalMembers(ms).value), RBRACE);
    case _ =>
  }

  lemma {:induction false} CanonicalItemBytes(items: seq<Json>)
    requires CanonicalItems(items).Some?
    ensures TotalBytes(CanonicalItems(items).value) == ItemBytes(items, 0)
    decreases ItemsSize(items), 1
  {
    if items != [] {
      if !items[0].Hole? { CanonicalBytes(items[0]); }
      CanonicalItemBytes(items[1..]);
    }
  }

  lemma {:induction false} CanonicalMemberBytes(ms: seq<Member>)
    requires CanonicalMembers(ms).Some?
    ensures TotalBytes(CanonicalMembers(ms).value) == MembersBytes(ms, 0)
    decreases MembersSize(ms), 1
  {
    if ms != [] {
      CanonicalBytes(ms[0].value);
      CanonicalMemberBytes(ms[1..]);
      MemberBytes(ms[0].key, CanonicalJson(ms[0].value).value);
    }
  }

  // ---- the text sent -------------------------------------------------------------------------

  lemma {:induction false} StringifyBytes(v: Json)
    ensures Utf8Length(Stringify(v)) == Bytes(v, 4)
    decreases v
  {
    LiteralBytes();
    match v
    case Arr(items) =>
      StringifyItemBytes(items);
      JoinBytes(StringifyItems(items));
      BracketBytes(LBRACKET, Join(StringifyItems(items)), RBRACKET);
    case Obj(members) =>
      StringifyMemberBytes(members);
      JoinBytes(StringifyMembers(members));
      BracketBytes(LBRACE, Join(StringifyMembers(members)), RBRACE);
    case _ =>
  }

  lemma {:induction false} StringifyItemBytes(items: seq<Json>)
    ensures TotalBytes(StringifyItems(items)) == ItemBytes(items, 4)
    decreases items
  {
    if items != [] {
      StringifyBytes(items[0]);
      StringifyItemBytes(items[1..]);
      assert StringifyItems(items)[1..] == StringifyItems(items[1..]);
    }
  }

  lemma {:induction false} StringifyMemberBytes(ms: seq<Member>)
    ensures TotalBytes(StringifyMembers(ms)) == MembersBytes(ms, 4)
    decreases ms
  {
    if ms != [] {
      StringifyBytes(ms[0].value);
      StringifyMemberBytes(ms[1..]);
      MemberBytes(ms[0].key, Stringify(ms[0].value));
      assert StringifyMembers(ms)[1..] == StringifyMembers(ms[1..]);
    }
  }

  lemma {:induction false} HoleBytes(v: Json)
    ensures Bytes(v, 4) == Bytes(v, 0) + 4 * Holes(v)
    decreases v
  {
    match v
    case Arr(items) => ItemHoleBytes(items);
    case Obj(members) => MemberHoleBytes(members);
    case _ =>
  }

  lemma {:induction false} ItemHoleBytes(items: seq<Json>)
    ensures ItemBytes(items, 4) == ItemBytes(items, 0) + 4 * ItemHoles(items)
    decreases items
  {
    if items != [] {
      HoleBytes(items[0]);
      ItemHoleBytes(items[1..]);
    }
  }

  lemma {:induction false} MemberHoleBytes(ms: seq<Member>)
    ensures MembersBytes(ms, 4) == MembersBytes(ms, 0) + 4 * MemberHoles(ms)
    decreases ms
  {
    if ms != [] {
      HoleBytes(ms[0].value);
      MemberHoleBytes(ms[1..]);
    }
  }

  /** The body sent is longer than the text measured by exactly four bytes for each empty slot. */
  lemma SentExceedsMeasured(v: Json)
    requires CanonicalJson(v).Some?
    ensures Utf8Length(Stringify(v)) == Utf8Length(CanonicalJson(v).value) + 4 * Holes(v)
  {
    CanonicalBytes(v);
    StringifyBytes(v);
    HoleBytes(v);
  }
}
