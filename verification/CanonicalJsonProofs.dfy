// The canonical text determines the value up to the order of object members:
// parsing it gives back the normalized value.
module CanonicalProofs {
  import opened Wrappers
  import opened Texts
  import opened JsonValue
  import opened Canonical

  // ---- string literals -------------------------------------------------

  lemma HexRoundTrip(n: nat)
    requires n < 16
    ensures HexValue(HexDigit(n)) == n
  {}

  lemma HexSplit(c: CodeUnit)
    ensures c / 0x1000 < 16
    ensures c / 0x1000 * 0x1000 + c / 0x100 % 16 * 0x100 + c / 16 % 16 * 16 + c % 16 == c
  {}

  lemma ParseEscapedUnit(c: CodeUnit, rest: Text)
    ensures ParseUnit(EscapeUnit(c) + rest) == Done(c, rest)
  {
    var e := EscapeUnit(c);
    var s := e + rest;
    assert s[|e|..] == rest;
    assert forall i :: 0 <= i < |e| ==> s[i] == e[i];
    if |e| == 6 {
      HexSplit(c);
      HexRoundTrip(c / 0x1000);
      HexRoundTrip(c / 0x100 % 16);
      HexRoundTrip(c / 16 % 16);
      HexRoundTrip(c % 16);
    }
  }

  lemma EscapedUnitShape(c: CodeUnit)
    ensures EscapeUnit(c)[0] != QUOTE
    ensures forall i :: 0 <= i < |EscapeUnit(c)| ==> EscapeUnit(c)[i] >= 32
  {}

  lemma ParseRawUnit(c: CodeUnit, rest: Text)
    requires c >= 32 && c != QUOTE && c != BACKSLASH
    ensures ParseUnit([c] + rest) == Done(c, rest)
  {
    assert ([c] + rest)[1..] == rest;
  }

  lemma ParseStringStep(s: Text, c: CodeUnit, more: Text, t: Text, rest: Text)
    requires ParseUnit(s) == Done(c, more)
    requires ParseString(more) == Done(t, rest)
    ensures ParseString(s) == Done([c] + t, rest)
  {}

  lemma ParsePair(high: CodeUnit, low: CodeUnit, more: Text, t: Text, rest: Text)
    requires IsHigh(high) && IsLow(low)
    requires ParseString(more) == Done(t, rest)
    ensures ParseString([high] + ([low] + more)) == Done([high] + ([low] + t), rest)
  {
    ParseRawUnit(low, more);
    ParseStringStep([low] + more, low, more, t, rest);
    ParseRawUnit(high, [low] + more);
    ParseStringStep([high] + ([low] + more), high, [low] + more, [low] + t, rest);
  }

  lemma ParseOne(c: CodeUnit, more: Text, t: Text, rest: Text)
    requires ParseString(more) == Done(t, rest)
    ensures ParseString(EscapeUnit(c) + more) == Done([c] + t, rest)
  {
    ParseEscapedUnit(c, more);
    ParseStringStep(EscapeUnit(c) + more, c, more, t, rest);
  }

  lemma Assoc(a: Text, b: Text, c: Text)
    ensures (a + b) + c == a + (b + c)
  {}

  predicate StartsWithPair(s: Text) {
    |s| > 1 && IsHigh(s[0]) && IsLow(s[1])
  }

  lemma EscapeStep(s: Text, tail: Text)
    requires s != []
    ensures StartsWithPair(s) ==> Escape(s) + tail == [s[0]] + ([s[1]] + (Escape(s[2..]) + tail))
    ensures !StartsWithPair(s) ==> Escape(s) + tail == EscapeUnit(s[0]) + (Escape(s[1..]) + tail)
  {
    if StartsWithPair(s) {
      Assoc([s[0]] + [s[1]], Escape(s[2..]), tail);
      Assoc([s[0]], [s[1]], Escape(s[2..]) + tail);
      assert s[..2] == [s[0]] + [s[1]];
    } else {
      Assoc(EscapeUnit(s[0]), Escape(s[1..]), tail);
    }
  }

  lemma NothingEscaped(rest: Text)
    ensures ParseString(Escape([]) + ([QUOTE] + rest)) == Done([], rest)
  {
    var tail := [QUOTE] + rest;
    assert Escape([]) + tail == tail;
    assert tail[1..] == rest;
  }

  lemma {:induction false} ParseEscaped(s: Text, rest: Text)
    ensures ParseString(Escape(s) + ([QUOTE] + rest)) == Done(s, rest)
  {
    hide Escape, ParseString, EscapeUnit;
    var tail := [QUOTE] + rest;
    if s == [] {
      NothingEscaped(rest);
    } else {
      EscapeStep(s, tail);
      if StartsWithPair(s) {
        ParseEscaped(s[2..], rest);
        ParsePair(s[0], s[1], Escape(s[2..]) + tail, s[2..], rest);
        assert [s[0]] + ([s[1]] + s[2..]) == s;
      } else {
        ParseEscaped(s[1..], rest);
        ParseOne(s[0], Escape(s[1..]) + tail, s[1..], rest);
        assert [s[0]] + s[1..] == s;
      }
    }
  }

  lemma ParseQuoted(s: Text, rest: Text)
    ensures (QuoteText(s) + rest)[0] == QUOTE
    ensures ParseString((QuoteText(s) + rest)[1..]) == Done(s, rest)
  {
    ParseEscaped(s, rest);
    assert (QuoteText(s) + rest)[1..] == Escape(s) + ([QUOTE] + rest);
  }

  // ---- numbers ---------------------------------------------------------

  predicate EndsNumber(rest: Text) {
    rest == [] || !IsNumberUnit(rest[0])
  }

  lemma {:induction false} NumberRunIs(t: Text, rest: Text)
    requires forall i :: 0 <= i < |t| ==> IsNumberUnit(t[i])
    requires EndsNumber(rest)
    ensures NumberRun(t + rest) == |t|
  {
    if t == [] {
      assert t + rest == rest;
    } else {
      assert (t + rest)[1..] == t[1..] + rest;
      NumberRunIs(t[1..], rest);
    }
  }

  lemma NumberOfDigits(t: Text)
    requires t != [] && AllDigits(t)
    ensures NumberOf(t) == Some(Int(Value(t)))
    ensures NumberOf([MINUS] + t) == Some(Int(0 - Value(t)))
  {
    hide IsFractionText, Value;
    var s := [MINUS] + t;
    assert s[0] == MINUS && s[1..] == t;
    assert !AllDigits(s) by { assert !IsDigit(s[0]); }
  }

  lemma NumberOfInteger(n: int)
    ensures NumberOf(Integer(n)) == Some(Int(n))
    ensures forall i :: 0 <= i < |Integer(n)| ==> IsNumberUnit(Integer(n)[i])
  {
    hide NumberOf, Decimal;
    var m: nat := if n < 0 then -n else n;
    ValueOfDecimal(m);
    NumberOfDigits(Decimal(m));
  }

  lemma NumberOfFraction(t: FractionText)
    ensures NumberOf(t) == Some(Fraction(t))
  {
    var k := if 46 in t then 46 else 101;
    var i :| 0 <= i < |t| && t[i] == k;
    assert !IsDigit(t[i]);
    if t[0] == MINUS && |t| > 1 {
      assert t[1..][i - 1] == t[i];
    }
  }

  lemma ParsePrintedNumber(n: Number, rest: Text, sparse: bool)
    requires Safe(n) && EndsNumber(rest)
    ensures ReadValue(CanonicalNumber(n).value + rest, sparse) == Done(Num(n), rest)
  {
    var t := CanonicalNumber(n).value;
    if n.Int? { NumberOfInteger(n.n); } else { NumberOfFraction(n.text); }
    NumberRunIs(t, rest);
    var s := t + rest;
    assert s[..|t|] == t && s[|t|..] == rest;
    assert t != [];
    assert s[0] == t[0] && IsNumberUnit(t[0]);
    NotALiteral(s, sparse);
  }

  lemma NotALiteral(s: Text, sparse: bool)
    requires s != [] && (IsDigit(s[0]) || s[0] == MINUS)
    ensures ReadValue(s, sparse) == ParseNumber(s)
  {
    assert NULL_TEXT[0] == 110 && TRUE_TEXT[0] == 116 && FALSE_TEXT[0] == 102;
  }

  // ---- arrays and objects ----------------------------------------------

  lemma FirstUnit(v: Json)
    requires CanonicalJson(v).Some?
    ensures CanonicalJson(v).value != []
    ensures CanonicalJson(v).value[0] != RBRACKET && CanonicalJson(v).value[0] != COMMA
  {
    if v.Num? && v.num.Int? {
      assert IsDigit(Integer(v.num.n)[0]) || Integer(v.num.n)[0] == MINUS;
    }
  }

  lemma JoinFirst(texts: seq<Text>)
    requires texts != [] && texts[0] != []
    ensures Join(texts) != [] && Join(texts)[0] == texts[0][0]
  {}

  lemma JoinStep(texts: seq<Text>, tail: Text)
    requires texts != []
    ensures |texts| == 1 ==> Join(texts) + tail == texts[0] + tail
    ensures |texts| > 1 ==> Join(texts) + tail == texts[0] + ([COMMA] + (Join(texts[1..]) + tail))
  {
    if |texts| > 1 {
      Assoc(texts[0] + [COMMA], Join(texts[1..]), tail);
      Assoc(texts[0], [COMMA], Join(texts[1..]) + tail);
    }
  }

  lemma ParseBracketed(body: Text, xs: seq<Json>, rest: Text, sparse: bool)
    requires body != [] && body[0] != RBRACKET
    requires ReadItems(body, sparse) == Done(xs, rest)
    ensures ReadValue([LBRACKET] + body, sparse) == Done(Arr(xs), rest)
  {
    hide ReadItems, ReadMembers, ParseNumber, ParseString;
    var s := [LBRACKET] + body;
    assert s[1..] == body;
    assert s[0] == LBRACKET && s[1] == body[0];
    assert NULL_TEXT[0] == 110 && TRUE_TEXT[0] == 116 && FALSE_TEXT[0] == 102;
  }

  lemma ParseBraced(body: Text, ms: seq<Member>, rest: Text, sparse: bool)
    requires body != [] && body[0] == QUOTE
    requires ReadMembers(body, sparse) == Done(ms, rest)
    ensures ReadValue([LBRACE] + body, sparse) == Done(Obj(ms), rest)
  {
    hide ReadItems, ReadMembers, ParseNumber, ParseString;
    var s := [LBRACE] + body;
    assert s[1..] == body;
    assert s[0] == LBRACE && s[1] == body[0];
    assert NULL_TEXT[0] == 110 && TRUE_TEXT[0] == 116 && FALSE_TEXT[0] == 102;
  }

  lemma ParseEmpty(rest: Text, sparse: bool)
    ensures ReadValue([LBRACKET, RBRACKET] + rest, sparse) == Done(Arr([]), rest)
    ensures ReadValue([LBRACE, RBRACE] + rest, sparse) == Done(Obj([]), rest)
  {
    var a, o := [LBRACKET, RBRACKET] + rest, [LBRACE, RBRACE] + rest;
    assert a[2..] == rest && o[2..] == rest;
    assert a[0] == LBRACKET && a[1] == RBRACKET && o[0] == LBRACE && o[1] == RBRACE;
    assert a[..2] == [LBRACKET, RBRACKET] && o[..2] == [LBRACE, RBRACE];
    assert NULL_TEXT[0] == 110 && TRUE_TEXT[0] == 116 && FALSE_TEXT[0] == 102;
  }

  lemma ParseLeaf(v: Json, rest: Text, sparse: bool)
    requires v.Null? || v.Bool? || v.Str?
    ensures ReadValue(CanonicalJson(v).value + rest, sparse) == Done(v, rest)
  {
    var t := CanonicalJson(v).value;
    var s := t + rest;
    assert s[..|t|] == t && s[|t|..] == rest;
    assert t <= s;
    assert NULL_TEXT[0] == 110 && TRUE_TEXT[0] == 116 && FALSE_TEXT[0] == 102;
    assert s[0] == t[0];
    if v.Str? {
      ParseQuoted(v.s, rest);
      assert s[..1] == [QUOTE];
    }
  }

  lemma ItemsEnd(s: Text, v: Json, rest: Text, sparse: bool)
    requires ReadItem(s, sparse) == Done(v, [RBRACKET] + rest)
    ensures ReadItems(s, sparse) == Done([v], rest)
  {
    assert ([RBRACKET] + rest)[1..] == rest;
  }

  lemma ItemsGoOn(s: Text, v: Json, more: Text, vs: seq<Json>, rest: Text, sparse: bool)
    requires ReadItem(s, sparse) == Done(v, [COMMA] + more)
    requires ReadItems(more, sparse) == Done(vs, rest)
    ensures ReadItems(s, sparse) == Done([v] + vs, rest)
  {
    assert ([COMMA] + more)[1..] == more;
  }

  /** The text of one member: its quoted key, a colon, the text `t` of its value. */
  lemma MemberText(key: Text, t: Text, tail: Text)
    ensures var s := QuoteText(key) + [COLON] + t + tail;
            s[0] == QUOTE && ParseString(s[1..]) == Done(key, [COLON] + (t + tail))
  {
    Assoc(QuoteText(key) + [COLON], t, tail);
    Assoc(QuoteText(key), [COLON], t + tail);
    ParseQuoted(key, [COLON] + (t + tail));
  }

  lemma MembersEnd(key: Text, t: Text, v: Json, rest: Text, sparse: bool)
    requires ReadValue(t + ([RBRACE] + rest), sparse) == Done(v, [RBRACE] + rest)
    ensures ReadMembers(QuoteText(key) + [COLON] + t + ([RBRACE] + rest), sparse) == Done([Member(key, v)], rest)
  {
    var tail := [RBRACE] + rest;
    MemberText(key, t, tail);
    assert ([COLON] + (t + tail))[1..] == t + tail;
    assert tail[1..] == rest;
  }

  lemma MembersGoOn(key: Text, t: Text, v: Json, more: Text, ms: seq<Member>, rest: Text, sparse: bool)
    requires ReadValue(t + ([COMMA] + more), sparse) == Done(v, [COMMA] + more)
    requires ReadMembers(more, sparse) == Done(ms, rest)
    ensures ReadMembers(QuoteText(key) + [COLON] + t + ([COMMA] + more), sparse) == Done([Member(key, v)] + ms, rest)
  {
    var tail := [COMMA] + more;
    MemberText(key, t, tail);
    assert ([COLON] + (t + tail))[1..] == t + tail;
    assert tail[1..] == more;
  }

  lemma CompoundText(open: CodeUnit, body: Text, close: CodeUnit, rest: Text)
    ensures [open] + body + [close] + rest == [open] + (body + ([close] + rest))
    ensures body == [] ==> [open] + body + [close] + rest == [open, close] + rest
  {
    Assoc([open] + body, [close], rest);
    Assoc([open], body, [close] + rest);
  }

  /** Reading back a canonical text consumes exactly that text. */
  lemma {:induction false} ParseCanonical(v: Json, rest: Text, sparse: bool)
    requires CanonicalJson(v).Some? && (sparse || Dense(v)) && !v.Hole? && EndsNumber(rest)
    ensures ReadValue(CanonicalJson(v).value + rest, sparse) == Done(Reread(v), rest)
    decreases Size(v), 0
  {
    match v
    case Num(n) => ParsePrintedNumber(n, rest, sparse);
    case Arr(items) => ParseCanonicalArray(items, rest, sparse);
    case Obj(members) => ParseCanonicalObject(members, rest, sparse);
    case _ => ParseLeaf(v, rest, sparse);
  }

  lemma {:induction false} ParseCanonicalArray(items: seq<Json>, rest: Text, sparse: bool)
    requires CanonicalJson(Arr(items)).Some? && (sparse || Dense(Arr(items)))
    ensures ReadValue(CanonicalJson(Arr(items)).value + rest, sparse) == Done(Reread(Arr(items)), rest)
    decreases ItemsSize(items), 2
  {
    var texts := CanonicalItems(items).value;
    var body := Join(texts);
    CompoundText(LBRACKET, body, RBRACKET, rest);
    if items == [] || items == [Hole] {
      EmptyBody(items);
      ParseEmpty(rest, sparse);
    } else {
      ParseCanonicalItems(items, rest, sparse);
      BodyStart(items);
      ParseBracketed(body + ([RBRACKET] + rest), RereadItems(items), rest, sparse);
    }
  }

  lemma EmptyBody(items: seq<Json>)
    requires items == [] || items == [Hole]
    ensures CanonicalItems(items).Some? && Join(CanonicalItems(items).value) == []
  {
    if items != [] { assert items[1..] == []; }
  }

  /** The text between the brackets of any other array does not begin with the closing one. */
  lemma BodyStart(items: seq<Json>)
    requires items != [] && items != [Hole] && CanonicalItems(items).Some?
    ensures var body := Join(CanonicalItems(items).value); body != [] && body[0] != RBRACKET
  {
    var texts := CanonicalItems(items).value;
    assert texts[0] == SlotText(items[0]).value;
    if !items[0].Hole? {
      FirstUnit(items[0]);
      JoinFirst(texts);
    }
  }

  /** The text of one item, before a comma or the closing bracket. */
  lemma {:induction false} ParseCanonicalItem(item: Json, tail: Text, sparse: bool)
    requires SlotText(item).Some? && (sparse || Dense(item))
    requires tail != [] && (tail[0] == COMMA || tail[0] == RBRACKET)
    ensures ReadItem(SlotText(item).value + tail, sparse) == Done(Reread(item), tail)
    decreases Size(item), 1
  {
    if item.Hole? {
      assert [] + tail == tail;
    } else {
      ParseCanonical(item, tail, sparse);
      FirstUnit(item);
    }
  }

  lemma {:induction false} ParseCanonicalObject(members: seq<Member>, rest: Text, sparse: bool)
    requires CanonicalJson(Obj(members)).Some? && (sparse || Dense(Obj(members)))
    ensures ReadValue(CanonicalJson(Obj(members)).value + rest, sparse) == Done(Reread(Obj(members)), rest)
    decreases MembersSize(members), 2
  {
    var ms := SortMembers(members);
    var body := Join(CanonicalMembers(ms).value);
    CompoundText(LBRACE, body, RBRACE, rest);
    assert CanonicalJson(Obj(members)).value == [LBRACE] + body + [RBRACE];
    assert Reread(Obj(members)) == Obj(RereadMembers(ms));
    if ms == [] {
      ParseEmpty(rest, sparse);
    } else {
      FirstMemberUnit(ms);
      SameMembers(ms, members);
      assert forall i :: 0 <= i < |ms| ==> ms[i] in members;
      ParseCanonicalMembers(ms, rest, sparse);
      ParseBraced(body + ([RBRACE] + rest), RereadMembers(ms), rest, sparse);
    }
  }

  lemma FirstMemberUnit(ms: seq<Member>)
    requires ms != [] && CanonicalMembers(ms).Some?
    ensures var body := Join(CanonicalMembers(ms).value); body != [] && body[0] == QUOTE
  {
    var texts := CanonicalMembers(ms).value;
    assert texts[0] == QuoteText(ms[0].key) + [COLON] + CanonicalJson(ms[0].value).value;
    JoinFirst(texts);
  }

  lemma {:induction false} ParseCanonicalItems(items: seq<Json>, rest: Text, sparse: bool)
    requires items != [] && CanonicalItems(items).Some?
    requires sparse || forall i :: 0 <= i < |items| ==> Dense(items[i])
    ensures ReadItems(Join(CanonicalItems(items).value) + ([RBRACKET] + rest), sparse) == Done(RereadItems(items), rest)
    decreases ItemsSize(items), 1
  {
    var texts := CanonicalItems(items).value;
    var tail := [RBRACKET] + rest;
    JoinStep(texts, tail);
    var head := SlotText(items[0]).value;
    assert texts == [head] + CanonicalItems(items[1..]).value;
    assert RereadItems(items) == [Reread(items[0])] + RereadItems(items[1..]);
    if |items| == 1 {
      ParseCanonicalItem(items[0], tail, sparse);
      ItemsEnd(head + tail, Reread(items[0]), rest, sparse);
      assert RereadItems(items[1..]) == [];
      assert RereadItems(items) == [Reread(items[0])];
      assert Join(texts) + tail == head + tail;
    } else {
      ParseCanonicalItems(items[1..], rest, sparse);
      assert texts[1..] == CanonicalItems(items[1..]).value;
      var more := Join(texts[1..]) + tail;
      ParseCanonicalItem(items[0], [COMMA] + more, sparse);
      assert Join(texts) + tail == head + ([COMMA] + more);
      ItemsGoOn(head + ([COMMA] + more), Reread(items[0]), more, RereadItems(items[1..]), rest, sparse);
    }
  }

  lemma {:induction false} ParseCanonicalMembers(ms: seq<Member>, rest: Text, sparse: bool)
    requires ms != [] && CanonicalMembers(ms).Some?
    requires sparse || forall i :: 0 <= i < |ms| ==> Dense(ms[i].value)
    ensures ReadMembers(Join(CanonicalMembers(ms).value) + ([RBRACE] + rest), sparse) == Done(RereadMembers(ms), rest)
    decreases MembersSize(ms), 1
  {
    var texts := CanonicalMembers(ms).value;
    var tail := [RBRACE] + rest;
    var head := CanonicalJson(ms[0].value).value;
    JoinStep(texts, tail);
    var text := QuoteText(ms[0].key) + [COLON] + head;
    assert texts == [text] + CanonicalMembers(ms[1..]).value;
    var v := Reread(ms[0].value);
    assert RereadMembers(ms) == [Member(ms[0].key, v)] + RereadMembers(ms[1..]);
    if |ms| == 1 {
      ParseCanonical(ms[0].value, tail, sparse);
      assert Join(texts) + tail == text + tail;
      MembersEnd(ms[0].key, head, v, rest, sparse);
      assert RereadMembers(ms[1..]) == [];
      assert RereadMembers(ms) == [Member(ms[0].key, v)];
    } else {
      ParseCanonicalMembers(ms[1..], rest, sparse);
      assert texts[1..] == CanonicalMembers(ms[1..]).value;
      var more := Join(texts[1..]) + tail;
      ParseCanonical(ms[0].value, [COMMA] + more, sparse);
      assert Join(texts) + tail == text + ([COMMA] + more);
      MembersGoOn(ms[0].key, head, v, more, RereadMembers(ms[1..]), rest, sparse);
    }
  }
}
