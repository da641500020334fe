/** Ordering of exact decimal encodings (migrations/versions/20260919_0001_b05_initial.py).
    An encoding is `sign:digits:exponent`; the model starts from its three fields. */
module ExactDecimal {
  import opened Basics
  import opened Wrappers

  datatype Encoded = Encoded(negative: bool, digits: seq<int>, exponent: int)

  const MIN_ETINY: int := -1_999_999_999_999_999_997
  const MAX_EMAX: int := 999_999_999_999_999_999

  datatype DecimalError = InvalidEncoding

  // ---- the database functions ------------------------------------------------------------

  predicate IsZero(x: Encoded) {
    x.digits == [0]
  }

  /** Canonical digits: a lone zero, or no leading zero. */
  predicate CanonicalDigits(digits: seq<int>) {
    digits != [] && (forall i :: 0 <= i < |digits| ==> 0 <= digits[i] <= 9) && (digits[0] != 0 || |digits| == 1)
  }

  /** nexa_decimal_is_valid. */
  predicate IsValid(x: Encoded) {
    && CanonicalDigits(x.digits)
    && MIN_ETINY <= x.exponent <= MAX_EMAX
    && (IsZero(x) || x.exponent + |x.digits| - 1 <= MAX_EMAX)
  }

  /** nexa_decimal_is_nonnegative. */
  predicate IsNonnegative(x: Encoded) {
    IsValid(x) && (!x.negative || IsZero(x))
  }

  /** nexa_decimal_is_positive. */
  predicate IsPositive(x: Encoded) {
    IsValid(x) && !x.negative && !IsZero(x)
  }

  /** nexa_decimal_adjusted_exponent, on valid encodings. */
  function AdjustedExponent(x: Encoded): int {
    if IsZero(x) then 0 else x.exponent + |x.digits| - 1
  }

  /** `rtrim(digits, '0')`. */
  function TrimZeros(digits: seq<int>): seq<int> {
    if digits != [] && digits[|digits| - 1] == 0 then TrimZeros(digits[..|digits| - 1]) else digits
  }

  /** nexa_decimal_normalized_significand, on valid encodings. */
  function Significand(x: Encoded): seq<int> {
    if IsZero(x) then [0] else TrimZeros(x.digits)
  }

  /** Text comparison under the C collation: a proper prefix sorts first. */
  function CompareText(a: seq<int>, b: seq<int>): int {
    if a == [] then (if b == [] then 0 else -1)
    else if b == [] then 1
    else if a[0] < b[0] then -1
    else if a[0] > b[0] then 1
    else CompareText(a[1..], b[1..])
  }

  function CompareMagnitude(a: Encoded, b: Encoded): int {
    if AdjustedExponent(a) < AdjustedExponent(b) then -1
    else if AdjustedExponent(a) > AdjustedExponent(b) then 1
    else CompareText(Significand(a), Significand(b))
  }

  /** nexa_decimal_compare. */
  function Compare(a: Encoded, b: Encoded): Result<int, DecimalError> {
    if !IsValid(a) || !IsValid(b) then Err(InvalidEncoding)
    else if IsZero(a) && IsZero(b) then Ok(0)
    else if IsZero(a) then Ok(if b.negative then 1 else -1)
    else if IsZero(b) then Ok(if a.negative then -1 else 1)
    else if a.negative != b.negative then Ok(if a.negative then -1 else 1)
    else Ok(if a.negative then -CompareMagnitude(a, b) else CompareMagnitude(a, b))
  }

  // ---- the numbers meant ---------------------------------------------------------------------

  function Pow10(n: nat): (p: nat)
    ensures p >= 1
  {
    if n == 0 then 1 else 10 * Pow10(n - 1)
  }

  /** The natural number a digit string spells. */
  function Spells(digits: seq<int>): int {
    if digits == [] then 0 else 10 * Spells(digits[..|digits| - 1]) + digits[|digits| - 1]
  }

  /** |x| in units of 10^scale. */
  function Magnitude(x: Encoded, scale: int): int
    requires scale <= x.exponent
  {
    Spells(x.digits) * Pow10(x.exponent - scale)
  }

  /** x in units of 10^scale: (-1)^sign * digits * 10^(exponent - scale). */
  function Value(x: Encoded, scale: int): int
    requires scale <= x.exponent
  {
    if x.negative then -Magnitude(x, scale) else Magnitude(x, scale)
  }

  function Sign(n: int): int {
    if n < 0 then -1 else if n > 0 then 1 else 0
  }

  // ---- digits as a padded number --------------------------------------------------------------

  ghost predicate Digits(s: seq<int>) {
    forall i :: 0 <= i < |s| ==> 0 <= s[i] <= 9
  }

  /** The digits followed by zeros up to `width` places. */
  function Padded(s: seq<int>, width: nat): int
    requires |s| <= width
  {
    if s == [] then 0 else s[0] * Pow10(width - 1) + Padded(s[1..], width - 1)
  }

  lemma MulAtMost(a: int, b: int, p: int)
    requires a <= b && p >= 0
    ensures a * p <= b * p
  {
    assert (b - a) * p >= 0;
  }

  lemma {:induction false} PaddedRange(s: seq<int>, width: nat)
    requires Digits(s) && |s| <= width
    ensures 0 <= Padded(s, width) < Pow10(width)
  {
    if s != [] {
      PaddedRange(s[1..], width - 1);
      MulAtMost(0, s[0], Pow10(width - 1));
      MulAtMost(s[0], 9, Pow10(width - 1));
    }
  }

  lemma {:induction false} PaddedPositive(s: seq<int>, width: nat)
    requires Digits(s) && |s| <= width && s != [] && s[|s| - 1] != 0
    ensures Padded(s, width) > 0
  {
    PaddedRange(s[1..], width - 1);
    if |s| > 1 {
      PaddedPositive(s[1..], width - 1);
      MulAtMost(0, s[0], Pow10(width - 1));
    } else {
      MulAtMost(1, s[0], Pow10(width - 1));
    }
  }

  /** Trailing zeros are padding already. */
  lemma {:induction false} PaddedSnocZero(s: seq<int>, width: nat)
    requires |s| < width
    ensures Padded(s + [0], width) == Padded(s, width)
  {
    if s == [] {
      assert s + [0] == [0];
      assert Padded([0][1..], width - 1) == 0;
    } else {
      assert (s + [0])[1..] == s[1..] + [0];
      PaddedSnocZero(s[1..], width - 1);
    }
  }

  lemma {:induction false} TrimKeepsPadded(s: seq<int>, width: nat)
    requires |s| <= width
    ensures |TrimZeros(s)| <= |s|
    ensures Padded(TrimZeros(s), width) == Padded(s, width)
  {
    if s != [] && s[|s| - 1] == 0 {
      var rest := s[..|s| - 1];
      TrimKeepsPadded(rest, width);
      PaddedSnocZero(rest, width);
      assert s == rest + [0];
    }
  }

  lemma {:induction false} TrimShape(s: seq<int>)
    ensures |TrimZeros(s)| <= |s| && TrimZeros(s) == s[..|TrimZeros(s)|]
    ensures TrimZeros(s) != [] ==> TrimZeros(s)[|TrimZeros(s)| - 1] != 0
  {
    if s != [] && s[|s| - 1] == 0 {
      TrimShape(s[..|s| - 1]);
    }
  }

  /** Padding is multiplication by a power of ten. */
  lemma {:induction false} PaddedIsProduct(s: seq<int>, width: nat)
    requires |s| <= width
    ensures Padded(s, width) == Spells(s) * Pow10(width - |s|)
  {
    if s != [] {
      var n := |s| - 1;
      var rest, p := s[..n], Pow10(width - |s|);
      PaddedIsProduct(rest, width);
      PaddedSnoc(rest, s[n], width);
      assert s == rest + [s[n]];
      assert Pow10(width - n) == 10 * p;
      assert Spells(rest) * (10 * p) == 10 * Spells(rest) * p;
      assert (10 * Spells(rest) + s[n]) * p == 10 * Spells(rest) * p + s[n] * p;
    }
  }

  lemma {:induction false} PaddedSnoc(s: seq<int>, d: int, width: nat)
    requires |s| < width
    ensures Padded(s + [d], width) == Padded(s, width) + d * Pow10(width - |s| - 1)
  {
    if s == [] {
      assert s + [d] == [d];
      assert Padded([d][1..], width - 1) == 0;
    } else {
      assert (s + [d])[1..] == s[1..] + [d];
      PaddedSnoc(s[1..], d, width - 1);
    }
  }

  function Times(a: int, b: int): int {
    a * b
  }

  lemma PaddedCons(s: seq<int>, width: nat)
    requires s != [] && |s| <= width
    ensures Padded(s, width) == Times(s[0], Pow10(width - 1)) + Padded(s[1..], width - 1)
  {
  }

  /** The first digit that differs decides. */
  lemma LeadingDigit(a: int, b: int, p: int, x: int, y: int)
    requires a < b && 0 <= x < p && 0 <= y < p
    ensures Times(a, p) + x < Times(b, p) + y
  {
    MulAtMost(a + 1, b, p);
    assert (a + 1) * p == a * p + p;
  }

  /** Lexicographic order of trimmed digits is numeric order of the padded numbers. */
  lemma {:induction false} TextIsNumeric(a: seq<int>, b: seq<int>, width: nat)
    requires Digits(a) && Digits(b) && |a| <= width && |b| <= width
    requires (a != [] ==> a[|a| - 1] != 0) && (b != [] ==> b[|b| - 1] != 0)
    ensures CompareText(a, b) == Sign(Padded(a, width) - Padded(b, width))
  {
    if a == [] {
      if b != [] {
        PaddedPositive(b, width);
      }
    } else if b == [] {
      PaddedPositive(a, width);
    } else {
      hide Pow10;
      hide Times;
      PaddedCons(a, width);
      PaddedCons(b, width);
      var p, x, y := Pow10(width - 1), Padded(a[1..], width - 1), Padded(b[1..], width - 1);
      PaddedRange(a[1..], width - 1);
      PaddedRange(b[1..], width - 1);
      if a[0] < b[0] {
        LeadingDigit(a[0], b[0], p, x, y);
      } else if a[0] > b[0] {
        LeadingDigit(b[0], a[0], p, y, x);
      } else {
        TextIsNumeric(a[1..], b[1..], width - 1);
      }
    }
  }

  // ---- magnitudes ------------------------------------------------------------------------------

  /** A nonzero magnitude, as its digits padded up to the place of the adjusted exponent. */
  lemma MagnitudePadded(x: Encoded, scale: int)
    requires IsValid(x) && !IsZero(x) && scale <= x.exponent
    ensures AdjustedExponent(x) + 1 - scale >= |x.digits|
    ensures Magnitude(x, scale) == Padded(x.digits, AdjustedExponent(x) + 1 - scale)
  {
    PaddedIsProduct(x.digits, AdjustedExponent(x) + 1 - scale);
  }

  lemma MagnitudeRange(x: Encoded, scale: int)
    requires IsValid(x) && !IsZero(x) && scale <= x.exponent
    ensures var place := AdjustedExponent(x) - scale;
            place >= 0 && Pow10(place) <= Magnitude(x, scale) < Pow10(place + 1)
  {
    var width := AdjustedExponent(x) + 1 - scale;
    MagnitudePadded(x, scale);
    PaddedRange(x.digits, width);
    PaddedRange(x.digits[1..], width - 1);
    MulAtMost(1, x.digits[0], Pow10(width - 1));
  }

  lemma {:induction false} PowMono(a: nat, b: nat)
    requires a <= b
    ensures Pow10(a) <= Pow10(b)
  {
    if a < b {
      PowMono(a, b - 1);
    }
  }

  lemma MagnitudeCompare(a: Encoded, b: Encoded, scale: int)
    requires IsValid(a) && !IsZero(a) && IsValid(b) && !IsZero(b)
    requires scale <= a.exponent && scale <= b.exponent
    ensures CompareMagnitude(a, b) == Sign(Magnitude(a, scale) - Magnitude(b, scale))
  {
    hide Magnitude;
    hide TrimZeros;
    var x, y := AdjustedExponent(a) - scale, AdjustedExponent(b) - scale;
    MagnitudeRange(a, scale);
    MagnitudeRange(b, scale);
    if x < y {
      PowMono(x + 1, y);
    } else if x > y {
      PowMono(y + 1, x);
    } else {
      MagnitudePadded(a, scale);
      MagnitudePadded(b, scale);
      TrimShape(a.digits);
      TrimShape(b.digits);
      TrimKeepsPadded(a.digits, x + 1);
      TrimKeepsPadded(b.digits, x + 1);
      TextIsNumeric(TrimZeros(a.digits), TrimZeros(b.digits), x + 1);
    }
  }

  lemma ZeroMagnitude(x: Encoded, scale: int)
    requires IsValid(x) && scale <= x.exponent
    ensures IsZero(x) ==> Magnitude(x, scale) == 0
    ensures !IsZero(x) ==> Magnitude(x, scale) > 0
  {
    if IsZero(x) {
      assert Spells([0]) == 10 * Spells([0][..0]) + 0;
    } else {
      MagnitudeRange(x, scale);
    }
  }

  // ---- the theorems ------------------------------------------------------------------------------

  /** The comparison is the comparison of the numbers, at any scale fine enough for both; it
      fails exactly on invalid encodings. */
  lemma CompareIsNumeric(a: Encoded, b: Encoded, scale: int)
    requires scale <= a.exponent && scale <= b.exponent
    ensures Compare(a, b).Ok? <==> IsValid(a) && IsValid(b)
    ensures Compare(a, b).Ok? ==> Compare(a, b).value == Sign(Value(a, scale) - Value(b, scale))
  {
    if IsValid(a) && IsValid(b) {
      ZeroMagnitude(a, scale);
      ZeroMagnitude(b, scale);
      if !IsZero(a) && !IsZero(b) {
        MagnitudeCompare(a, b, scale);
      }
    }
  }

  /** Sign tests agree with the numbers too. */
  lemma SignTests(x: Encoded, scale: int)
    requires scale <= x.exponent && IsValid(x)
    ensures IsNonnegative(x) <==> Value(x, scale) >= 0
    ensures IsPositive(x) <==> Value(x, scale) > 0
  {
    ZeroMagnitude(x, scale);
  }

  /** So the comparison is a total preorder: reflexive, antisymmetric in sign, transitive. */
  lemma ComparePreorder(a: Encoded, b: Encoded, c: Encoded)
    requires IsValid(a) && IsValid(b) && IsValid(c)
    ensures Compare(a, a) == Ok(0)
    ensures Compare(a, b).Ok? && Compare(b, a) == Ok(-Compare(a, b).value)
    ensures Compare(b, c).Ok? && Compare(a, c).Ok?
    ensures Compare(a, b).value <= 0 && Compare(b, c).value <= 0 ==> Compare(a, c).value <= 0
    ensures Compare(a, b).value < 0 && Compare(b, c).value <= 0 ==> Compare(a, c).value < 0
  {
    var scale := Min(a.exponent, Min(b.exponent, c.exponent));
    CompareIsNumeric(a, a, scale);
    CompareIsNumeric(a, b, scale);
    CompareIsNumeric(b, a, scale);
    CompareIsNumeric(b, c, scale);
    CompareIsNumeric(a, c, scale);
  }
}
