/** Printing and parsing price ratios, which are fixed-point numbers with eighteen decimals. */
module PriceText {
  import opened Prelude
  import opened Arithmetic

  const TWO64 := 0x1_0000_0000_0000_0000
  const INT64_MAX := 0x7fff_ffff_ffff_ffff
  const RATIO_PRECISION := 1_000_000_000_000_000_000
  const DECIMALS := 18

  /* ---------------------------------------------------------------- decimal numbers */

  predicate IsDigit(c: char) {
    '0' <= c <= '9'
  }

  function DigitValue(c: char): nat
    requires IsDigit(c)
  {
    c as int - '0' as int
  }

  function DigitChar(d: nat): (c: char)
    requires d < 10
    ensures IsDigit(c) && DigitValue(c) == d
  {
    (d + '0' as int) as char
  }

  predicate AllDigits(s: string) {
    forall i | 0 <= i < |s| :: IsDigit(s[i])
  }

  /** The number a string of digits denotes. */
  function Value(s: string): nat
    requires AllDigits(s)
  {
    if s == "" then 0 else Value(s[..|s| - 1]) * 10 + DigitValue(s[|s| - 1])
  }

  function Decimal(n: nat): string {
    if n < 10 then [DigitChar(n)] else Decimal(n / 10) + [DigitChar(n % 10)]
  }

  function Power10(n: nat): (p: nat)
    ensures p >= 1
  {
    if n == 0 then 1 else 10 * Power10(n - 1)
  }

  lemma {:induction false} DecimalValue(n: nat)
    ensures AllDigits(Decimal(n)) && Decimal(n) != "" && Value(Decimal(n)) == n
  {
    if n >= 10 {
      DecimalValue(n / 10);
      assert Decimal(n)[..|Decimal(n)| - 1] == Decimal(n / 10);
    } else {
      assert Decimal(n)[..0] == "";
    }
  }

  lemma {:induction false} ValueBelow(s: string)
    requires AllDigits(s)
    ensures Value(s) < Power10(|s|)
  {
    if s != "" {
      ValueBelow(s[..|s| - 1]);
    }
  }

  lemma TimesTen(v: nat, p: nat)
    ensures v * p * 10 == v * (10 * p)
  {
  }

  lemma {:induction false} ValueAppend(s: string, t: string)
    requires AllDigits(s) && AllDigits(t)
    ensures AllDigits(s + t) && Value(s + t) == Value(s) * Power10(|t|) + Value(t)
  {
    if t == "" {
      assert s + t == s;
    } else {
      var n := |t| - 1;
      ValueAppend(s, t[..n]);
      assert (s + t)[..|s + t| - 1] == s + t[..n] && (s + t)[|s + t| - 1] == t[n];
      assert AllDigits(s + t);
      calc {
        Value(s + t);
        (Value(s) * Power10(n) + Value(t[..n])) * 10 + DigitValue(t[n]);
        Value(s) * Power10(n) * 10 + Value(t);
        { TimesTen(Value(s), Power10(n)); }
        Value(s) * Power10(|t|) + Value(t);
      }
    }
  }

  lemma {:induction false} ZerosValue(t: string)
    requires forall i | 0 <= i < |t| :: t[i] == '0'
    ensures AllDigits(t) && Value(t) == 0
  {
    if t != "" {
      ZerosValue(t[..|t| - 1]);
    }
  }

  lemma {:induction false} PowerSplit(m: nat, n: nat)
    ensures Power10(m + n) == Power10(m) * Power10(n)
  {
    if m > 0 {
      PowerSplit(m - 1, n);
    }
  }

  lemma PrecisionIsPower()
    ensures Power10(DECIMALS) == RATIO_PRECISION
  {
    assert Power10(6) == 1000000;
    PowerSplit(6, 6);
    PowerSplit(12, 6);
  }

  lemma {:induction false} DecimalLength(n: nat, k: nat)
    requires Power10(k) <= n < 10 * Power10(k)
    ensures |Decimal(n)| == k + 1
  {
    if k > 0 {
      DecimalLength(n / 10, k - 1);
    }
  }

  /* ---------------------------------------------------------------- printing */

  /** The eighteen decimals of a ratio: the digits after the first of precision plus fraction. */
  function FractionText(f: nat): (s: string)
    requires f < RATIO_PRECISION
    ensures |s| == DECIMALS && AllDigits(s) && Value(s) == f
  {
    PrecisionIsPower();
    DecimalLength(RATIO_PRECISION + f, DECIMALS);
    DecimalValue(RATIO_PRECISION + f);
    var t := Decimal(RATIO_PRECISION + f);
    ValueAppend(t[..1], t[1..]);
    assert t == t[..1] + t[1..];
    ValueBelow(t[1..]);
    LeadingOne(t, f);
    t[1..]
  }

  lemma LeadingOne(t: string, f: nat)
    requires AllDigits(t) && |t| == DECIMALS + 1 && Value(t) == RATIO_PRECISION + f && f < RATIO_PRECISION
    requires Value(t) == Value(t[..1]) * Power10(DECIMALS) + Value(t[1..]) && Value(t[1..]) < Power10(DECIMALS)
    ensures Value(t[1..]) == f
  {
    PrecisionIsPower();
    assert Value(t) == Value(t[..1]) * RATIO_PRECISION + Value(t[1..]);
  }

  predicate AllZeros(s: string) {
    forall i | 0 <= i < |s| :: s[i] == '0'
  }

  /** The text of a ratio: integer part, point, and the decimals without trailing zeros. */
  ghost predicate IsText(text: string, ratio: nat, m: nat) {
    && m <= DECIMALS
    && text == Decimal(ratio / RATIO_PRECISION) + "." + FractionText(ratio % RATIO_PRECISION)[..m]
    && AllZeros(FractionText(ratio % RATIO_PRECISION)[m..])
    && (m > 0 ==> FractionText(ratio % RATIO_PRECISION)[m - 1] != '0')
  }

  method RatioString(ratio: nat) returns (text: string)
    ensures exists m: nat :: IsText(text, ratio, m)
  {
    ghost var whole, fraction := Decimal(ratio / RATIO_PRECISION), FractionText(ratio % RATIO_PRECISION);
    text := Decimal(ratio / RATIO_PRECISION) + "." + FractionText(ratio % RATIO_PRECISION);
    ghost var m: nat := DECIMALS;
    assert fraction[..m] == fraction && fraction[m..] == "";
    while text[|text| - 1] == '0'
      invariant m <= DECIMALS && text == whole + "." + fraction[..m] && AllZeros(fraction[m..])
      decreases |text|
    {
      assert m > 0 && text[|text| - 1] == fraction[m - 1];
      assert fraction[m - 1..] == [fraction[m - 1]] + fraction[m..];
      text := text[..|text| - 1];
      m := m - 1;
      assert text == whole + "." + fraction[..m];
    }
    assert m > 0 ==> text[|text| - 1] == fraction[m - 1];
    assert IsText(text, ratio, m);
  }

  /* ---------------------------------------------------------------- parsing */

  datatype ParseError = Malformed | Overflow

  /** Where the digits that start at position `i` end. */
  function DigitsEnd(s: string, i: nat): (j: nat)
    requires i <= |s|
    ensures i <= j <= |s| && AllDigits(s[i..j]) && (j < |s| ==> !IsDigit(s[j]))
    decreases |s| - i
  {
    if i < |s| && IsDigit(s[i]) then
      var j := DigitsEnd(s, i + 1);
      assert s[i..j] == [s[i]] + s[i + 1..j];
      j
    else i
  }

  /** The decimals after the integer part, up to the end of the digits. */
  function Decimals(s: string, j: nat): string
    requires j <= |s|
  {
    if j < |s| && s[j] == '.' then s[j + 1..DigitsEnd(s, j + 1)] else ""
  }

  lemma DecimalsAreDigits(s: string, j: nat)
    requires j <= |s|
    ensures AllDigits(Decimals(s, j))
  {
  }

  /** A fraction part in units of the precision. */
  function Scaled(part: nat, magnitude: nat): nat
    requires magnitude > 0
  {
    part * (RATIO_PRECISION / magnitude)
  }

  /** The ratio and the number of characters a text stands for. The integer part wraps around at 64 bits, and
      more than eighteen decimals overflow the signed accumulators. */
  function Parsed(s: string): Result<(nat, nat), ParseError> {
    var j := DigitsEnd(s, 0);
    if j == 0 && (s == "" || s[0] != '.') then Err(Malformed)
    else
      DecimalsAreDigits(s, j);
      Combined(s[0..j], Decimals(s, j), if j < |s| && s[j] == '.' then j + 1 + |Decimals(s, j)| else j)
  }

  function Combined(whole: string, decimals: string, length: nat): Result<(nat, nat), ParseError>
    requires AllDigits(whole) && AllDigits(decimals)
  {
    if |decimals| > DECIMALS then Err(Overflow)
    else Ok(((Value(whole) % TWO64) * RATIO_PRECISION + Scaled(Value(decimals), Power10(|decimals|)), length))
  }

  lemma ValueNext(s: string, i: nat, k: nat)
    requires i <= k < |s| && AllDigits(s[i..k]) && IsDigit(s[k])
    ensures AllDigits(s[i..k + 1]) && Value(s[i..k + 1]) == Value(s[i..k]) * 10 + DigitValue(s[k])
  {
    assert s[i..k + 1] == s[i..k] + [s[k]];
    assert s[i..k + 1][..k - i] == s[i..k];
  }

  lemma {:induction false} EndIs(s: string, i: nat, j: nat)
    requires i <= j <= |s| && AllDigits(s[i..j]) && (j < |s| ==> !IsDigit(s[j]))
    ensures DigitsEnd(s, i) == j
    decreases j - i
  {
    if i < j {
      assert s[i] == s[i..j][0] && s[i + 1..j] == s[i..j][1..];
      EndIs(s, i + 1, j);
    }
  }

  lemma WrapNext(v: nat, d: nat)
    ensures ((v % TWO64) * 10 + d) % TWO64 == (v * 10 + d) % TWO64
  {
    var q := v / TWO64;
    assert v * 10 + d == (v % TWO64) * 10 + d + TWO64 * (10 * q);
  }

  /** Reads the integer part into a 64-bit accumulator. */
  method ReadWhole(s: string) returns (whole: nat, j: nat)
    ensures j == DigitsEnd(s, 0) && whole == Value(s[0..j]) % TWO64
  {
    whole, j := 0, 0;
    while j < |s| && IsDigit(s[j])
      invariant 0 <= j <= |s| && AllDigits(s[0..j]) && whole == Value(s[0..j]) % TWO64
    {
      ValueNext(s, 0, j);
      WrapNext(Value(s[0..j]), DigitValue(s[j]));
      whole := (whole * 10 + DigitValue(s[j])) % TWO64;
      j := j + 1;
    }
    EndIs(s, 0, j);
  }

  /** Reads the decimals from position `i`. Neither accumulator leaves the signed 64-bit range unless there are
      more than eighteen of them. */
  method ReadDecimals(s: string, i: nat) returns (ok: bool, part: nat, magnitude: nat, k: nat)
    requires i < |s| && IsDigit(s[i])
    ensures ok <==> DigitsEnd(s, i) - i <= DECIMALS
    ensures ok ==> k == DigitsEnd(s, i) && part == Value(s[i..k]) <= INT64_MAX && magnitude == Power10(k - i) <= INT64_MAX
  {
    part, magnitude, k := DigitValue(s[i]), 10, i + 1;
    assert s[i..k] == [s[i]] && s[i..k][..0] == "";
    PrecisionIsPower();
    while k < |s| && IsDigit(s[k])
      invariant i < k <= |s| && k - i <= DECIMALS && AllDigits(s[i..k])
      invariant part == Value(s[i..k]) < magnitude == Power10(k - i) <= RATIO_PRECISION
    {
      ValueNext(s, i, k);
      MagnitudeFits(k - i);
      if magnitude * 10 > INT64_MAX {
        TooMany(s, i, k + 1);
        return false, part, magnitude, k;
      }
      part := part * 10 + DigitValue(s[k]);
      magnitude := magnitude * 10;
      k := k + 1;
    }
    EndIs(s, i, k);
    ok := true;
  }

  /** One more decimal fits the accumulators unless there are eighteen already. */
  lemma MagnitudeFits(n: nat)
    requires n <= DECIMALS
    ensures Power10(n) * 10 > INT64_MAX <==> n == DECIMALS
    ensures n < DECIMALS ==> Power10(n + 1) <= RATIO_PRECISION
  {
    PrecisionIsPower();
    if n < DECIMALS {
      PowerSplit(n + 1, DECIMALS - (n + 1));
      MulMonotone(1, Power10(DECIMALS - (n + 1)), Power10(n + 1));
    }
  }

  lemma {:induction false} TooMany(s: string, i: nat, k: nat)
    requires i <= k <= |s| && AllDigits(s[i..k])
    ensures DigitsEnd(s, i) >= k
    decreases k - i
  {
    if i < k {
      assert s[i] == s[i..k][0] && s[i + 1..k] == s[i..k][1..];
      TooMany(s, i + 1, k);
    }
  }

  method ParseRatio(s: string) returns (r: Result<(nat, nat), ParseError>)
    ensures r == Parsed(s)
  {
    var whole, j := ReadWhole(s);
    if j == 0 && (s == "" || s[0] != '.') {
      return Err(Malformed);
    }
    var ratio := whole * RATIO_PRECISION;
    if j < |s| && s[j] == '.' {
      j := j + 1;
      if j < |s| && IsDigit(s[j]) {
        var ok, part, magnitude, k := ReadDecimals(s, j);
        if !ok {
          return Err(Overflow);
        }
        return Ok((ratio + Scaled(part, magnitude), k));
      }
    }
    r := Ok((ratio, j));
  }

  /* ---------------------------------------------------------------- the round trip */

  /** Reading back a printed ratio gives its value up to the 64-bit wrap of the integer part. */
  lemma ReadBack(text: string, ratio: nat, m: nat)
    requires IsText(text, ratio, m)
    ensures Parsed(text) == Ok((((ratio / RATIO_PRECISION) % TWO64) * RATIO_PRECISION + ratio % RATIO_PRECISION, |text|))
  {
    var fraction := FractionText(ratio % RATIO_PRECISION);
    DecimalValue(ratio / RATIO_PRECISION);
    ParseParts(Decimal(ratio / RATIO_PRECISION), fraction[..m]);
    StrippedFraction(fraction, m);
  }

  lemma ParseParts(whole: string, decimals: string)
    requires whole != "" && AllDigits(whole) && AllDigits(decimals)
    ensures var text := whole + "." + decimals; Parsed(text) == Combined(whole, decimals, |text|)
  {
    var text, j := whole + "." + decimals, |whole|;
    assert text[0..j] == whole && text[j] == '.';
    EndIs(text, 0, j);
    assert text[j + 1..|text|] == decimals;
    EndIs(text, j + 1, |text|);
    assert Decimals(text, j) == decimals;
  }

  /** Dropping trailing zeros does not change the value of the decimals. */
  lemma StrippedFraction(fraction: string, m: nat)
    requires |fraction| == DECIMALS && AllDigits(fraction) && m <= DECIMALS && AllZeros(fraction[m..])
    ensures Scaled(Value(fraction[..m]), Power10(m)) == Value(fraction)
  {
    assert fraction == fraction[..m] + fraction[m..];
    ValueAppend(fraction[..m], fraction[m..]);
    ZerosValue(fraction[m..]);
    PrecisionIsPower();
    PowerSplit(DECIMALS - m, m);
    DivExact(Power10(DECIMALS - m), Power10(m));
  }

  /** Printing and parsing is the identity exactly on the ratios below 2^64. */
  lemma RoundTrip(text: string, ratio: nat, m: nat)
    requires IsText(text, ratio, m)
    ensures Parsed(text) == Ok((ratio, |text|)) <==> ratio < TWO64 * RATIO_PRECISION
  {
    ReadBack(text, ratio, m);
    var q := ratio / RATIO_PRECISION;
    assert ratio == q * RATIO_PRECISION + ratio % RATIO_PRECISION;
    assert q < TWO64 ==> q % TWO64 == q;
  }
}
