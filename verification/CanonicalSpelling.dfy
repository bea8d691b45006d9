// How canonical texts are spelled: the order of keys, the escapes of string literals (ECMA-262, QuoteJSONString),
// which numbers have a text at all, and what is hashed.
module CanonicalSpelling {
  import opened Wrappers
  import opened Texts
  import opened JsonValue
  import opened Canonical
  import opened CanonicalProofs
  import opened CanonicalTheorems
  import opened SentBody

  // ---- order ----------------------------------------------------------------------------------------------

  /** `a` ends, or has the smaller code unit, where the two first differ. */
  predicate DifferAt(a: Text, b: Text, k: nat) {
    k <= |a| && k < |b| && a[..k] == b[..k] && (k == |a| || a[k] < b[k])
  }

  /** The order of keys: by the first code unit that differs, a proper prefix first. */
  lemma {:induction false} LessMeans(a: Text, b: Text)
    ensures Less(a, b) <==> exists k: nat :: DifferAt(a, b, k)
  {
    if a == [] || b == [] || a[0] != b[0] {
      if Less(a, b) { assert DifferAt(a, b, 0); }
    } else {
      LessMeans(a[1..], b[1..]);
      if k: nat :| DifferAt(a[1..], b[1..], k) {
        assert a[..k + 1] == [a[0]] + a[1..][..k] && b[..k + 1] == [b[0]] + b[1..][..k];
        assert DifferAt(a, b, k + 1);
      }
      if k: nat :| DifferAt(a, b, k) {
        assert a[1..][..k - 1] == a[..k][1..] && b[1..][..k - 1] == b[..k][1..];
        assert DifferAt(a[1..], b[1..], k - 1);
      }
    }
  }

  // ---- escapes ----------------------------------------------------------------------------------------------

  /** A text is escaped piece by piece; only a surrogate pair must not be cut in two. */
  lemma {:induction false} EscapePieces(a: Text, b: Text)
    requires a == [] || b == [] || !(IsHigh(a[|a| - 1]) && IsLow(b[0]))
    ensures Escape(a + b) == Escape(a) + Escape(b)
  {
    hide EscapeUnit;
    var s := a + b;
    if a == [] {
      assert s == b;
    } else if b == [] {
      assert s == a;
    } else if |a| > 1 && IsHigh(a[0]) && IsLow(a[1]) {
      assert s[2..] == a[2..] + b && s[..2] == a[..2];
      EscapePieces(a[2..], b);
    } else {
      assert s[1..] == a[1..] + b;
      EscapePieces(a[1..], b);
    }
  }

  predicate LowerHex(c: CodeUnit) { 48 <= c <= 57 || 97 <= c <= 102 }

  function HexUnit(c: CodeUnit): int { if c <= 57 then c - 48 else c - 87 }

  /** `\u` and the four hexadecimal digits, in lower case, of the code unit. */
  predicate SpellsUnit(t: Text, c: CodeUnit) {
    && |t| == 6 && t[..2] == Ascii("\\u")
    && LowerHex(t[2]) && LowerHex(t[3]) && LowerHex(t[4]) && LowerHex(t[5])
    && c == 4096 * HexUnit(t[2]) + 256 * HexUnit(t[3]) + 16 * HexUnit(t[4]) + HexUnit(t[5])
  }

  /** What becomes of one code unit: seven have a short escape, the other control characters and a surrogate without
      its partner are spelled out, and every other one stands for itself. */
  lemma EscapedUnit(c: CodeUnit)
    ensures var t := Escape([c]);
            if c == 34 then t == Ascii("\\\"")
            else if c == 92 then t == Ascii("\\\\")
            else if c == 8 then t == Ascii("\\b")
            else if c == 9 then t == Ascii("\\t")
            else if c == 10 then t == Ascii("\\n")
            else if c == 12 then t == Ascii("\\f")
            else if c == 13 then t == Ascii("\\r")
            else if c < 32 || 0xD800 <= c <= 0xDFFF then SpellsUnit(t, c)
            else t == [c]
  {
    assert [c][1..] == [];
    assert Escape([c]) == EscapeUnit(c);
    if c < 32 || 0xD800 <= c <= 0xDFFF {
      HexSplit(c);
      assert UnicodeEscape(c)[..2] == Ascii("\\u");
    }
  }

  /** A surrogate pair stands for itself. */
  lemma EscapedPair(high: CodeUnit, low: CodeUnit)
    requires 0xD800 <= high <= 0xDBFF && 0xDC00 <= low <= 0xDFFF
    ensures Escape([high, low]) == [high, low]
  {
    assert [high, low][..2] == [high, low] && [high, low][2..] == [];
  }

  // ---- numbers ----------------------------------------------------------------------------------------------

  /** Which numbers have a text: finite ones, integers only as far as a double counts without gaps. */
  lemma NumbersWithText(n: Number)
    ensures CanonicalJson(Num(n)).Some? <==>
            match n
            case Int(i) => -9007199254740991 <= i <= 9007199254740991
            case Fraction(_) => true
            case NonFinite => false
  {}

  // ---- what is hashed ---------------------------------------------------------------------------------------

  /** The preimage is the key, a line feed and a text that reads back to the request with its keys sorted. */
  lemma PreimageReadsBack(key: Text, request: Json)
    requires IsJson(request)
    ensures var p := Preimage(key, request);
            && p.Some? && |p.value| > |key| && p.value[..|key|] == key && p.value[|key|] == 10
            && ParseValue(p.value[|key| + 1..]) == Done(Normalize(request), [])
  {
    hide CanonicalJson;
    RoundTrip(request);
    var p := Preimage(key, request).value;
    assert p[|key| + 1..] == CanonicalJson(request).value;
  }

  // ---- bytes --------------------------------------------------------------------------------------------------

  /** The UTF-8 form (RFC 3629) of a code point. */
  function Encoded(point: nat): (r: seq<nat>)
    requires point < 0x110000
    ensures forall i :: 0 <= i < |r| ==> r[i] < 256
  {
    if point < 0x80 then [point]
    else if point < 0x800 then [0xC0 + point / 64, 0x80 + point % 64]
    else if point < 0x10000 then [0xE0 + point / 4096, 0x80 + point / 64 % 64, 0x80 + point % 64]
    else [0xF0 + point / 262144, 0x80 + point / 4096 % 64, 0x80 + point / 64 % 64, 0x80 + point % 64]
  }

  /** A code unit by itself is measured as its UTF-8 form, a surrogate as that of the replacement character. */
  lemma UnitMeasured(c: CodeUnit)
    ensures Utf8Length([c]) == |Encoded(if 0xD800 <= c <= 0xDFFF then 0xFFFD else c)|
  {
    assert [c][1..] == [];
  }

  lemma PairMeasured(high: CodeUnit, low: CodeUnit)
    requires 0xD800 <= high <= 0xDBFF && 0xDC00 <= low <= 0xDFFF
    ensures Utf8Length([high, low]) == |Encoded(0x10000 + 1024 * (high - 0xD800) + (low - 0xDC00))|
  {
    assert [high, low][2..] == [];
  }
}
