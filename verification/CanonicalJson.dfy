// `canonicalJson` and the preimage hashed by `requestFingerprint`.
module Canonical {
  import opened Wrappers
  import opened Texts
  import opened JsonValue

  const QUOTE: CodeUnit := 34
  const COMMA: CodeUnit := 44
  const COLON: CodeUnit := 58
  const LBRACKET: CodeUnit := 91
  const BACKSLASH: CodeUnit := 92
  const RBRACKET: CodeUnit := 93
  const LBRACE: CodeUnit := 123
  const RBRACE: CodeUnit := 125
  const NEWLINE: CodeUnit := 10

  const NULL_TEXT: Text := [110, 117, 108, 108]
  const TRUE_TEXT: Text := [116, 114, 117, 101]
  const FALSE_TEXT: Text := [102, 97, 108, 115, 101]

  predicate IsHigh(c: CodeUnit) {
    0xD800 <= c <= 0xDBFF
  }

  predicate IsLow(c: CodeUnit) {
    0xDC00 <= c <= 0xDFFF
  }

  function HexDigit(n: nat): CodeUnit
    requires n < 16
  {
    if n < 10 then 48 + n else 87 + n
  }

  function UnicodeEscape(c: CodeUnit): (r: Text)
    ensures |r| == 6
  {
    [BACKSLASH, 117, HexDigit(c / 0x1000), HexDigit(c / 0x100 % 16), HexDigit(c / 16 % 16), HexDigit(c % 16)]
  }

  function EscapeUnit(c: CodeUnit): (r: Text)
    ensures |r| > 0
  {
    if c == 8 then [BACKSLASH, 98]
    else if c == 9 then [BACKSLASH, 116]
    else if c == 10 then [BACKSLASH, 110]
    else if c == 12 then [BACKSLASH, 102]
    else if c == 13 then [BACKSLASH, 114]
    else if c == QUOTE then [BACKSLASH, QUOTE]
    else if c == BACKSLASH then [BACKSLASH, BACKSLASH]
    else if c < 32 || IsHigh(c) || IsLow(c) then UnicodeEscape(c)
    else [c]
  }

  /** The body of a string literal as well-formed `JSON.stringify` writes it: surrogate pairs stay raw. */
  function Escape(s: Text): Text {
    if s == [] then []
    else if IsHigh(s[0]) && |s| > 1 && IsLow(s[1]) then s[..2] + Escape(s[2..])
    else EscapeUnit(s[0]) + Escape(s[1..])
  }

  function QuoteText(s: Text): (r: Text)
    ensures r != []
  {
    [QUOTE] + Escape(s) + [QUOTE]
  }

  function Join(texts: seq<Text>): Text {
    if texts == [] then []
    else if |texts| == 1 then texts[0]
    else texts[0] + [COMMA] + Join(texts[1..])
  }

  /** None stands for the TypeError thrown on a value that is not JSON. */
  function CanonicalJson(v: Json): Option<Text>
    decreases Size(v), 0
  {
    match v
    case Null => Some(NULL_TEXT)
    case Bool(b) => Some(if b then TRUE_TEXT else FALSE_TEXT)
    case Num(n) => CanonicalNumber(n)
    case Str(s) => Some(QuoteText(s))
    case Arr(items) =>
      var texts := CanonicalItems(items);
      if texts.None? then None else Some([LBRACKET] + Join(texts.value) + [RBRACKET])
    case Obj(members) =>
      var texts := CanonicalMembers(SortMembers(members));
      if texts.None? then None else Some([LBRACE] + Join(texts.value) + [RBRACE])
    case Hole => None
    case Other => None
  }

  /** `map` leaves an empty slot empty, and `join` writes it as the empty text. */
  function SlotText(item: Json): Option<Text>
    decreases Size(item), 1
  {
    if item.Hole? then Some([]) else CanonicalJson(item)
  }

  function CanonicalNumber(n: Number): Option<Text> {
    if !Safe(n) then None
    else if n.Int? then Some(Integer(n.n))
    else Some(n.text)
  }

  function CanonicalItems(items: seq<Json>): (r: Option<seq<Text>>)
    ensures r.Some? ==> |r.value| == |items|
    decreases ItemsSize(items), 0
  {
    if items == [] then Some([])
    else
      var head := SlotText(items[0]);
      var tail := CanonicalItems(items[1..]);
      if head.Some? && tail.Some? then Some([head.value] + tail.value) else None
  }

  function CanonicalMembers(ms: seq<Member>): (r: Option<seq<Text>>)
    ensures r.Some? ==> |r.value| == |ms|
    decreases MembersSize(ms), 0
  {
    if ms == [] then Some([])
    else
      var head := CanonicalJson(ms[0].value);
      var tail := CanonicalMembers(ms[1..]);
      if head.Some? && tail.Some?
      then Some([QuoteText(ms[0].key) + [COLON] + head.value] + tail.value) else None
  }

  /** The text fed to SHA-256: the key, one line feed, the canonical request. */
  function Preimage(key: Text, request: Json): Option<Text> {
    var body := CanonicalJson(request);
    if body.None? then None else Some(key + [NEWLINE] + body.value)
  }

  // ---------------------------------------------------------------------
  // A parser for JSON texts without white space (RFC 8259, sections 2 to 7).

  datatype Parsed<+T> = Fail | Done(value: T, rest: Text)

  function HexValue(c: CodeUnit): int {
    if 48 <= c <= 57 then c - 48 else if 97 <= c <= 102 then c - 87 else if 65 <= c <= 70 then c - 55 else -1
  }

  function Unescaped(c: CodeUnit): Option<CodeUnit> {
    if c == QUOTE || c == BACKSLASH || c == 47 then Some(c)
    else if c == 98 then Some(8)
    else if c == 102 then Some(12)
    else if c == 110 then Some(10)
    else if c == 114 then Some(13)
    else if c == 116 then Some(9)
    else None
  }

  /** One character of a string literal, escaped or not. */
  function ParseUnit(s: Text): (r: Parsed<CodeUnit>)
    ensures r.Done? ==> |r.rest| < |s|
  {
    if s == [] || s[0] < 32 || s[0] == QUOTE then Fail
    else if s[0] != BACKSLASH then Done(s[0], s[1..])
    else if |s| < 2 then Fail
    else if s[1] != 117 then
      var u := Unescaped(s[1]);
      if u.None? then Fail else Done(u.value, s[2..])
    else if |s| < 6 then Fail
    else
      var a, b, c, d := HexValue(s[2]), HexValue(s[3]), HexValue(s[4]), HexValue(s[5]);
      if a < 0 || b < 0 || c < 0 || d < 0 then Fail
      else Done(a * 0x1000 + b * 0x100 + c * 16 + d, s[6..])
  }

  /** The characters up to the closing quotation mark. */
  function ParseString(s: Text): (r: Parsed<Text>)
    ensures r.Done? ==> |r.rest| < |s|
  {
    if s != [] && s[0] == QUOTE then Done([], s[1..])
    else
      var u := ParseUnit(s);
      if u.Fail? then Fail
      else
        var t := ParseString(u.rest);
        if t.Fail? then Fail else Done([u.value] + t.value, t.rest)
  }

  function NumberRun(s: Text): (n: nat)
    ensures n <= |s|
    ensures forall i :: 0 <= i < n ==> IsNumberUnit(s[i])
    ensures n < |s| ==> !IsNumberUnit(s[n])
  {
    if s == [] || !IsNumberUnit(s[0]) then 0 else 1 + NumberRun(s[1..])
  }

  function NumberOf(t: Text): Option<Number> {
    if t == [] then None
    else if AllDigits(t) then Some(Int(Value(t)))
    else if t[0] == MINUS && |t| > 1 && AllDigits(t[1..]) then Some(Int(0 - Value(t[1..])))
    else if IsFractionText(t) then Some(Fraction(t))
    else None
  }

  function ParseNumber(s: Text): (r: Parsed<Json>)
    ensures r.Done? ==> |r.rest| < |s|
  {
    var n := NumberRun(s);
    var num := NumberOf(s[..n]);
    if num.None? then Fail else Done(Num(num.value), s[n..])
  }

  /** JSON, or with `sparse` also arrays that have nothing between two commas or a comma and a bracket: there is an
      empty slot. */
  function ReadValue(s: Text, sparse: bool): (r: Parsed<Json>)
    ensures r.Done? ==> |r.rest| < |s|
    decreases |s|, 1
  {
    if NULL_TEXT <= s then Done(Null, s[4..])
    else if TRUE_TEXT <= s then Done(Bool(true), s[4..])
    else if FALSE_TEXT <= s then Done(Bool(false), s[5..])
    else if [QUOTE] <= s then
      var t := ParseString(s[1..]);
      if t.Fail? then Fail else Done(Str(t.value), t.rest)
    else if [LBRACKET, RBRACKET] <= s then Done(Arr([]), s[2..])
    else if [LBRACKET] <= s then
      var xs := ReadItems(s[1..], sparse);
      if xs.Fail? then Fail else Done(Arr(xs.value), xs.rest)
    else if [LBRACE, RBRACE] <= s then Done(Obj([]), s[2..])
    else if [LBRACE] <= s then
      var ms := ReadMembers(s[1..], sparse);
      if ms.Fail? then Fail else Done(Obj(ms.value), ms.rest)
    else ParseNumber(s)
  }

  function ReadItem(s: Text, sparse: bool): (r: Parsed<Json>)
    ensures r.Done? ==> |r.rest| <= |s|
    decreases |s|, 2
  {
    if sparse && s != [] && (s[0] == COMMA || s[0] == RBRACKET) then Done(Hole, s) else ReadValue(s, sparse)
  }

  function ReadItems(s: Text, sparse: bool): (r: Parsed<seq<Json>>)
    ensures r.Done? ==> |r.rest| < |s|
    decreases |s|, 3
  {
    var v := ReadItem(s, sparse);
    if v.Fail? || v.rest == [] then Fail
    else if v.rest[0] == RBRACKET then Done([v.value], v.rest[1..])
    else if v.rest[0] == COMMA then
      var vs := ReadItems(v.rest[1..], sparse);
      if vs.Fail? then Fail else Done([v.value] + vs.value, vs.rest)
    else Fail
  }

  function ReadMembers(s: Text, sparse: bool): (r: Parsed<seq<Member>>)
    ensures r.Done? ==> |r.rest| < |s|
    decreases |s|, 2
  {
    if s == [] || s[0] != QUOTE then Fail
    else
      var k := ParseString(s[1..]);
      if k.Fail? || k.rest == [] || k.rest[0] != COLON then Fail
      else
        var v := ReadValue(k.rest[1..], sparse);
        if v.Fail? || v.rest == [] then Fail
        else if v.rest[0] == RBRACE then Done([Member(k.value, v.value)], v.rest[1..])
        else if v.rest[0] == COMMA then
          var ms := ReadMembers(v.rest[1..], sparse);
          if ms.Fail? then Fail else Done([Member(k.value, v.value)] + ms.value, ms.rest)
        else Fail
  }

  /** The JSON reading. */
  function ParseValue(s: Text): (r: Parsed<Json>)
    ensures r.Done? ==> |r.rest| < |s|
  {
    ReadValue(s, false)
  }

  /** The members of every object, at every depth, in the order of their keys. */
  function Normalize(v: Json): Json
    decreases Size(v)
  {
    match v
    case Arr(items) => Arr(NormalizeItems(items))
    case Obj(members) => Obj(NormalizeMembers(SortMembers(members)))
    case _ => v
  }

  function NormalizeItems(items: seq<Json>): (r: seq<Json>)
    ensures |r| == |items|
    decreases ItemsSize(items)
  {
    if items == [] then [] else [Normalize(items[0])] + NormalizeItems(items[1..])
  }

  function NormalizeMembers(ms: seq<Member>): (r: seq<Member>)
    ensures |r| == |ms|
    ensures forall i :: 0 <= i < |ms| ==> r[i].key == ms[i].key
    decreases MembersSize(ms)
  {
    if ms == [] then [] else [Member(ms[0].key, Normalize(ms[0].value))] + NormalizeMembers(ms[1..])
  }

  /** What the sparse reading makes of a canonical text: as `Normalize`, but an array of one empty slot is written, and
      read, like the empty array. */
  function Reread(v: Json): Json
    decreases Size(v)
  {
    match v
    case Arr(items) => if items == [Hole] then Arr([]) else Arr(RereadItems(items))
    case Obj(members) => Obj(RereadMembers(SortMembers(members)))
    case _ => v
  }

  function RereadItems(items: seq<Json>): (r: seq<Json>)
    ensures |r| == |items|
    decreases ItemsSize(items)
  {
    if items == [] then [] else [Reread(items[0])] + RereadItems(items[1..])
  }

  function RereadMembers(ms: seq<Member>): (r: seq<Member>)
    ensures |r| == |ms|
    decreases MembersSize(ms)
  {
    if ms == [] then [] else [Member(ms[0].key, Reread(ms[0].value))] + RereadMembers(ms[1..])
  }
}
