// `parseRetryAfterDeltaSeconds`: delay-seconds (RFC 9110, section 10.2.3) bounded
// by comparing numerals as strings, so that no oversized number is ever converted.
module RetryAfter {
  import opened Wrappers
  import opened Texts

  const MAX_SAFE_INTEGER: int := 9007199254740991

  /** `value.replace(/^0+(?=\d)/, "")` on a string of digits. */
  function StripZeros(s: Text): (r: Text)
    requires s != [] && AllDigits(s)
    ensures r != [] && AllDigits(r) && Value(r) == Value(s)
    ensures |r| > 1 ==> r[0] != ZERO
  {
    if s[0] == ZERO && |s| > 1 then
      ValueFromFront(s);
      StripZeros(s[1..])
    else s
  }

  function BoundedMaximum(maximumSeconds: real): int {
    if maximumSeconds.Floor <= MAX_SAFE_INTEGER then maximumSeconds.Floor else MAX_SAFE_INTEGER
  }

  /** The header value is None when the header is absent; the result is None when it is not delay-seconds. */
  function ParseRetryAfter(value: Option<Text>, maximumSeconds: real): Option<real> {
    if value.None? || value.value == [] || !AllDigits(value.value) then None
    else
      var digits := StripZeros(value.value);
      var maximumDigits := Integer(BoundedMaximum(maximumSeconds));
      if |digits| > |maximumDigits| || (|digits| == |maximumDigits| && Less(maximumDigits, digits))
      then Some(maximumSeconds)
      else Some(Value(digits) as real)
  }

  // ---- numerals compared as strings ------------------------------------------

  function Pow10(n: nat): (p: nat)
    ensures p > 0
  {
    if n == 0 then 1 else 10 * Pow10(n - 1)
  }

  lemma {:induction false} ValueFromFront(s: Text)
    requires s != [] && AllDigits(s)
    ensures Value(s) == (s[0] - 48) * Pow10(|s| - 1) + Value(s[1..])
  {
    var n := |s|;
    if n == 1 {
      assert s[..0] == [] && s[1..] == [];
    } else {
      var t := s[..n - 1];
      ValueFromFront(t);
      assert t[0] == s[0] && t[1..] == s[1..][..n - 2] && s[1..][n - 2] == s[n - 1];
      var d, p := s[0] - 48, Pow10(n - 2);
      assert Pow10(n - 1) == 10 * p;
      assert d * (10 * p) == 10 * (d * p);
    }
  }

  lemma {:induction false} ValueBelow(s: Text)
    requires AllDigits(s)
    ensures Value(s) < Pow10(|s|)
  {
    if s != [] {
      ValueBelow(s[..|s| - 1]);
    }
  }

  /** Between numerals of one length, the order of code units is the order of values. */
  lemma {:induction false} SameLengthOrder(a: Text, b: Text)
    requires AllDigits(a) && AllDigits(b) && |a| == |b|
    ensures Less(a, b) <==> Value(a) < Value(b)
  {
    if a != [] {
      ValueFromFront(a);
      ValueFromFront(b);
      ValueBelow(a[1..]);
      ValueBelow(b[1..]);
      SameLengthOrder(a[1..], b[1..]);
      var p := Pow10(|a| - 1);
      if a[0] < b[0] {
        LargerLead(a[0] - 48, b[0] - 48, p, Value(a[1..]), Value(b[1..]));
      } else if b[0] < a[0] {
        LargerLead(b[0] - 48, a[0] - 48, p, Value(b[1..]), Value(a[1..]));
      }
    }
  }

  lemma LargerLead(x: nat, y: nat, p: nat, u: nat, v: nat)
    requires x < y && u < p
    ensures x * p + u < y * p + v
  {
    assert (x + 1) * p <= y * p;
  }

  lemma {:induction false} Pow10Grows(m: nat, n: nat)
    requires m <= n
    ensures Pow10(m) <= Pow10(n)
  {
    if m < n { Pow10Grows(m, n - 1); }
  }

  lemma AtLeastOnce(d: nat, p: nat)
    requires d >= 1
    ensures d * p >= p
  {}

  lemma ShorterIsSmaller(a: Text, b: Text)
    requires AllDigits(a) && AllDigits(b) && |a| < |b|
    requires b[0] != ZERO
    ensures Value(a) < Value(b)
  {
    ValueBelow(a);
    ValueFromFront(b);
    Pow10Grows(|a|, |b| - 1);
    AtLeastOnce(b[0] - 48, Pow10(|b| - 1));
  }

  /** Longer, or equally long and later in code-unit order, is greater: for numerals without leading zeros. */
  lemma StringOrderIsNumericOrder(digits: Text, limit: nat)
    requires digits != [] && AllDigits(digits) && (|digits| > 1 ==> digits[0] != ZERO)
    ensures (|digits| > |Decimal(limit)| || (|digits| == |Decimal(limit)| && Less(Decimal(limit), digits))) <==>
            Value(digits) > limit
  {
    var m := Decimal(limit);
    ValueOfDecimal(limit);
    if |digits| > |m| {
      ShorterIsSmaller(m, digits);
    } else if |digits| < |m| {
      ShorterIsSmaller(digits, m);
    } else {
      SameLengthOrder(m, digits);
    }
  }

  // ---- the result ------------------------------------------------------------

  /** A present header is used exactly when it is a non-empty string of ASCII digits. */
  lemma RetryAfterRecognizesDigits(value: Option<Text>, maximumSeconds: real)
    ensures ParseRetryAfter(value, maximumSeconds).Some? <==>
            (value.Some? && value.value != [] && AllDigits(value.value))
  {}

  /** The numeral's value when it is at most the bound, and the unrounded maximum otherwise. */
  lemma RetryAfterIsBoundedValue(value: Text, maximumSeconds: real)
    requires value != [] && AllDigits(value) && maximumSeconds >= 0.0
    ensures ParseRetryAfter(Some(value), maximumSeconds) ==
            Some(if Value(value) <= maximumSeconds.Floor && Value(value) <= 9007199254740991 then Value(value) as real
                 else maximumSeconds)
    ensures 0.0 <= ParseRetryAfter(Some(value), maximumSeconds).value <= maximumSeconds
  {
    assert maximumSeconds.Floor >= 0;
    StringOrderIsNumericOrder(StripZeros(value), BoundedMaximum(maximumSeconds));
    var n := Value(value);
    if n <= BoundedMaximum(maximumSeconds) {
      assert n as real <= maximumSeconds.Floor as real;
    }
  }

  lemma IntegerOfNegative(n: int)
    requires n < 0
    ensures Integer(n)[0] == MINUS && |Integer(n)| == 1 + |Decimal(-n)|
  {}

  /** Below zero the string comparison no longer decides: a numeral shorter than the (signed) maximum escapes the
      bound. The Worker never calls it so: its configuration has a positive `maxDelayMs`. `String` writes integers
      above -10^21 without an exponent. */
  lemma RetryAfterNegativeMaximum(value: Text, maximumSeconds: real)
    requires value != [] && AllDigits(value)
    requires -1_000_000_000_000_000_000_000 < maximumSeconds.Floor < 0
    ensures ParseRetryAfter(Some(value), maximumSeconds) == Some(maximumSeconds) <==>
            |StripZeros(value)| >= |Integer(maximumSeconds.Floor)|
  {
    var digits := StripZeros(value);
    IntegerOfNegative(maximumSeconds.Floor);
    assert digits[0] > MINUS;
    assert maximumSeconds < 0.0;
  }

  /** "7" under a maximum of -5 seconds is 7 seconds. */
  lemma SevenEscapesNegativeMaximum()
    ensures ParseRetryAfter(Some([55]), -5.0) == Some(7.0)
  {
    var seven: Text := [55];
    IntegerOfNegative(-5);
    assert Decimal(5) == [53];
    assert seven[..0] == [];
    assert Value(seven) == 7 && StripZeros(seven) == seven;
  }
}
