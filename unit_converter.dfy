/**
 * UnitConverter.toBytes: a byte size written as decimal digits, optionally
 * followed by a binary unit suffix (k, m or g in either case), read as a
 * Java `long`.  The product of the value and the unit wraps around as
 * Java's `long` multiplication does.
 */
module UnitConverter {
  import opened Common

  const ONE_KIB: int := 1024
  const ONE_MIB: int := 1024 * ONE_KIB
  const ONE_GIB: int := 1024 * ONE_MIB

  /** The two IllegalArgumentExceptions toBytes may throw. */
  datatype ParseError =
    | UnknownValue(value: string)     // the value does not match the byte pattern
    | NumberFormat(digits: string)    // Long.parseLong's NumberFormatException: the digits exceed Long.MAX_VALUE

  predicate IsDigit(c: char) { '0' <= c <= '9' }

  /** One of the suffix characters k, K, m, M, g, G. */
  predicate IsUnitSuffix(c: char) { c == 'k' || c == 'K' || c == 'm' || c == 'M' || c == 'g' || c == 'G' }

  predicate AllDigits(s: string) { forall i :: 0 <= i < |s| ==> IsDigit(s[i]) }

  /** A digit group and a suffix group that the byte pattern accepts. */
  predicate IsByteSplit(digits: string, suffix: string) {
    |digits| >= 1 && AllDigits(digits) && (suffix == "" || (|suffix| == 1 && IsUnitSuffix(suffix[0])))
  }

  /**
   * The whole of `s` matches `([0-9]+)([kKmMgG]?)`: some k >= 1 characters
   * are all digits and what follows is empty or one suffix character.
   */
  ghost predicate MatchesBytePattern(s: string) {
    exists k :: MatchesAt(s, k)
  }

  /** The digit group of `s` is its first k characters. */
  ghost predicate MatchesAt(s: string, k: int) {
    && 1 <= k <= |s| && (forall i :: 0 <= i < k ==> IsDigit(s[i]))
    && (k == |s| || (k == |s| - 1 && IsUnitSuffix(s[k])))
  }

  /** Matching against the byte pattern: the two groups, or None when `s` does not match. */
  function MatchBytePattern(s: string): (m: Option<(string, string)>)
    ensures m.Some? ==> s == m.value.0 + m.value.1 && IsByteSplit(m.value.0, m.value.1)
  {
    var hasSuffix := |s| >= 1 && IsUnitSuffix(s[|s| - 1]);
    var digits := if hasSuffix then s[..|s| - 1] else s;
    var suffix := if hasSuffix then s[|s| - 1..] else "";
    assert s == digits + suffix;
    if IsByteSplit(digits, suffix) then Some((digits, suffix)) else None
  }

  /** The matcher finds the groups exactly when the whole string matches the byte pattern. */
  lemma MatchBytePatternIsFullMatch(s: string)
    ensures MatchBytePattern(s).Some? <==> MatchesBytePattern(s)
  {
    var hasSuffix := |s| >= 1 && IsUnitSuffix(s[|s| - 1]);
    var digits := if hasSuffix then s[..|s| - 1] else s;
    var suffix := if hasSuffix then s[|s| - 1..] else "";
    if MatchBytePattern(s).Some? {
      var k := |digits|;
      assert forall i :: 0 <= i < k ==> s[i] == digits[i];
      assert forall i :: 0 <= i < k ==> IsDigit(s[i]);
      if hasSuffix {
        assert k == |s| - 1 && IsUnitSuffix(s[k]);
      }
      assert MatchesAt(s, k);
    }
    if MatchesBytePattern(s) {
      var k :| MatchesAt(s, k);
      if k == |s| {
        assert IsDigit(s[|s| - 1]);
        assert !hasSuffix;
      } else {
        assert hasSuffix;
        assert forall i :: 0 <= i < k ==> digits[i] == s[i];
      }
      assert AllDigits(digits);
      assert IsByteSplit(digits, suffix);
    }
  }

  function DigitValue(c: char): nat
    requires IsDigit(c)
  {
    (c as int) - ('0' as int)
  }

  /** The number the decimal digits `d` denote; leading zeros are allowed. */
  function DecimalValue(d: string): nat
    requires AllDigits(d)
  {
    if |d| == 0 then 0 else DecimalValue(d[..|d| - 1]) * 10 + DigitValue(d[|d| - 1])
  }

  /** Long.parseLong on a string of digits. */
  function ParseLong(digits: string): (r: Result<Long, ParseError>)
    requires AllDigits(digits)
    ensures r.Ok? <==> DecimalValue(digits) <= LONG_MAX
    ensures r.Ok? ==> r.value == DecimalValue(digits)
    ensures r.Err? ==> r.error == NumberFormat(digits)
  {
    var n := DecimalValue(digits);
    if n <= LONG_MAX then Ok(n) else Err(NumberFormat(digits))
  }

  /** The number of bytes a unit suffix stands for; no suffix means bytes. */
  function Multiplier(suffix: string): (f: int)
    ensures suffix == "g" || suffix == "G" ==> f == ONE_GIB
    ensures suffix == "m" || suffix == "M" ==> f == ONE_MIB
    ensures suffix == "k" || suffix == "K" ==> f == ONE_KIB
    ensures suffix == "" ==> f == 1
  {
    if suffix == "g" || suffix == "G" then ONE_GIB
    else if suffix == "m" || suffix == "M" then ONE_MIB
    else if suffix == "k" || suffix == "K" then ONE_KIB
    else 1
  }

  /** toBytes(value) */
  function ToBytes(value: string): (r: Result<Long, ParseError>)
    ensures r.Err? && r.error.UnknownValue? ==> r.error.value == value
  {
    match MatchBytePattern(value)
    case None => Err(UnknownValue(value))
    case Some((digits, suffix)) =>
      match ParseLong(digits)
      case Err(e) => Err(e)
      case Ok(baseValue) => Ok(WrapLong(baseValue * Multiplier(suffix)))
  }

  // ---------------------------------------------------------------------
  // Properties of toBytes

  /** toBytes throws "Unknown value" exactly for the strings that do not match the byte pattern. */
  lemma UnknownValueIffNoMatch(value: string)
    ensures ToBytes(value) == Err(UnknownValue(value)) <==> !MatchesBytePattern(value)
  {
    MatchBytePatternIsFullMatch(value);
  }

  /** The empty string, a suffix without digits, a two-letter suffix and a sign are all rejected. */
  lemma RejectsMalformedValues()
    ensures ToBytes("") == Err(UnknownValue(""))
    ensures ToBytes("k") == Err(UnknownValue("k"))
    ensures ToBytes("1kb") == Err(UnknownValue("1kb"))
    ensures ToBytes("-1") == Err(UnknownValue("-1"))
  {
    assert !IsDigit('k') && !IsDigit('-') && !IsUnitSuffix('b') && !IsUnitSuffix('1');
  }

  /** toBytes of digits followed by an accepted suffix: the digits' value times the unit, as a wrapping `long` product. */
  lemma {:induction false} ToBytesOfSplit(digits: string, suffix: string)
    requires IsByteSplit(digits, suffix)
    ensures DecimalValue(digits) <= LONG_MAX ==>
              ToBytes(digits + suffix) == Ok(WrapLong(DecimalValue(digits) * Multiplier(suffix)))
    ensures DecimalValue(digits) > LONG_MAX ==> ToBytes(digits + suffix) == Err(NumberFormat(digits))
  {
    var s := digits + suffix;
    if suffix == "" {
      assert s == digits;
    } else {
      assert s[..|s| - 1] == digits && s[|s| - 1..] == suffix;
    }
  }

  /** Plain digits are read as their decimal value, leading zeros included. */
  lemma PlainDigitsAreBytes(digits: string)
    requires |digits| >= 1 && AllDigits(digits) && DecimalValue(digits) <= LONG_MAX
    ensures ToBytes(digits) == Ok(DecimalValue(digits))
  {
    ToBytesOfSplit(digits, "");
    assert digits + "" == digits;
    assert Multiplier("") == 1;
    assert DecimalValue(digits) * 1 == DecimalValue(digits);
  }

  /** A leading zero does not change a value. */
  lemma {:induction false} LeadingZeroIgnored(digits: string)
    requires AllDigits(digits)
    ensures AllDigits("0" + digits)
    ensures DecimalValue("0" + digits) == DecimalValue(digits)
  {
    var z := "0" + digits;
    assert AllDigits(z) by {
      forall i | 0 <= i < |z| ensures IsDigit(z[i]) {
        if i > 0 { assert z[i] == digits[i - 1]; }
      }
    }
    if |digits| > 0 {
      var init := digits[..|digits| - 1];
      LeadingZeroIgnored(init);
      assert z[..|z| - 1] == "0" + init;
      assert z[|z| - 1] == digits[|digits| - 1];
    }
  }

  /** toBytes("0" + digits) == toBytes(digits). */
  lemma LeadingZeroToBytes(digits: string)
    requires |digits| >= 1 && AllDigits(digits) && DecimalValue(digits) <= LONG_MAX
    ensures ToBytes("0" + digits) == ToBytes(digits)
  {
    LeadingZeroIgnored(digits);
    PlainDigitsAreBytes(digits);
    PlainDigitsAreBytes("0" + digits);
  }

  /**
   * Past Long.MAX_VALUE a leading zero does change the result: both strings
   * are rejected, each with a NumberFormatException naming its own digits.
   */
  lemma LeadingZeroTooLarge(digits: string)
    requires |digits| >= 1 && AllDigits(digits) && DecimalValue(digits) > LONG_MAX
    ensures ToBytes("0" + digits) == Err(NumberFormat("0" + digits))
    ensures ToBytes(digits) == Err(NumberFormat(digits))
    ensures ToBytes("0" + digits) != ToBytes(digits)
  {
    LeadingZeroIgnored(digits);
    TooLargeRejected(digits, "");
    TooLargeRejected("0" + digits, "");
    assert digits + "" == digits;
    assert ("0" + digits) + "" == "0" + digits;
  }

  /** k/K, m/M and g/G multiply by 1024, 1024² and 1024³ when the product fits in a `long`. */
  lemma SuffixMultiplies(digits: string, c: char)
    requires |digits| >= 1 && AllDigits(digits) && IsUnitSuffix(c)
    ensures var v := DecimalValue(digits);
      && ((c == 'k' || c == 'K') && v * 1024 <= LONG_MAX ==> ToBytes(digits + [c]) == Ok(v * 1024))
      && ((c == 'm' || c == 'M') && v * 1048576 <= LONG_MAX ==> ToBytes(digits + [c]) == Ok(v * 1048576))
      && ((c == 'g' || c == 'G') && v * 1073741824 <= LONG_MAX ==> ToBytes(digits + [c]) == Ok(v * 1073741824))
  {
    var v := DecimalValue(digits);
    ToBytesOfSplit(digits, [c]);
    var f := Multiplier([c]);
    if c == 'k' || c == 'K' {
      assert f == 1024;
    } else if c == 'm' || c == 'M' {
      assert f == 1048576;
    } else {
      assert f == 1073741824;
    }
  }

  /**
   * The suffix's case does not matter: the lower- and upper-case suffix give
   * the same result for any digit string, and reject the same other strings.
   */
  lemma SuffixCaseInsensitive(prefix: string, lower: char, upper: char)
    requires (lower, upper) in {('k', 'K'), ('m', 'M'), ('g', 'G')}
    ensures ToBytes(prefix + [lower]).Ok? <==> ToBytes(prefix + [upper]).Ok?
    ensures |prefix| >= 1 && AllDigits(prefix) ==> ToBytes(prefix + [lower]) == ToBytes(prefix + [upper])
  {
    assert IsUnitSuffix(lower) && IsUnitSuffix(upper);
    assert Multiplier([lower]) == Multiplier([upper]);
    if |prefix| >= 1 && AllDigits(prefix) {
      ToBytesOfSplit(prefix, [lower]);
      ToBytesOfSplit(prefix, [upper]);
    } else {
      RejectsBadDigitGroup(prefix, [lower]);
      RejectsBadDigitGroup(prefix, [upper]);
    }
  }

  /** A unit suffix after anything but a non-empty digit string is rejected. */
  lemma RejectsBadDigitGroup(prefix: string, suffix: string)
    requires |suffix| == 1 && IsUnitSuffix(suffix[0])
    requires !(|prefix| >= 1 && AllDigits(prefix))
    ensures ToBytes(prefix + suffix) == Err(UnknownValue(prefix + suffix))
  {
    var s := prefix + suffix;
    assert s[..|s| - 1] == prefix && s[|s| - 1..] == suffix;
  }

  /** Digits whose value exceeds Long.MAX_VALUE are rejected by the parse, whatever the suffix. */
  lemma TooLargeRejected(digits: string, suffix: string)
    requires IsByteSplit(digits, suffix) && DecimalValue(digits) > LONG_MAX
    ensures ToBytes(digits + suffix) == Err(NumberFormat(digits))
  {
    ToBytesOfSplit(digits, suffix);
  }

  lemma DecimalValueOfTwoToThe33()
    ensures AllDigits("8589934592") && DecimalValue("8589934592") == 8589934592
  {
    var d := "8589934592";
    assert AllDigits(d);
    assert DecimalValue("8") == 8 by { assert "8"[..0] == ""; }
    assert DecimalValue("85") == 85 by { assert "85"[..1] == "8"; }
    assert DecimalValue("858") == 858 by { assert "858"[..2] == "85"; }
    assert DecimalValue("8589") == 8589 by { assert "8589"[..3] == "858"; }
    assert DecimalValue("85899") == 85899 by { assert "85899"[..4] == "8589"; }
    assert DecimalValue("858993") == 858993 by { assert "858993"[..5] == "85899"; }
    assert DecimalValue("8589934") == 8589934 by { assert "8589934"[..6] == "858993"; }
    assert DecimalValue("85899345") == 85899345 by { assert "85899345"[..7] == "8589934"; }
    assert DecimalValue("858993459") == 858993459 by { assert "858993459"[..8] == "85899345"; }
    assert d[..9] == "858993459";
  }

  /** A product beyond Long.MAX_VALUE wraps: 2^33 gibibytes come out as Long.MIN_VALUE. */
  lemma OverflowWraps()
    ensures ToBytes("8589934592g") == Ok(LONG_MIN)
  {
    var d := "8589934592";
    DecimalValueOfTwoToThe33();
    ToBytesOfSplit(d, "g");
    assert d + "g" == "8589934592g";
    assert WrapLong(8589934592 * ONE_GIB) == LONG_MIN;
  }

  /** The decimal representation of n, without leading zeros. */
  function DecimalString(n: nat): (s: string)
    ensures |s| >= 1 && AllDigits(s)
    ensures DecimalValue(s) == n
  {
    var last := ['0' + ((n % 10) as char)];
    if n < 10 then last
    else
      var init := DecimalString(n / 10);
      var s := init + last;
      assert s[..|s| - 1] == init;
      s
  }

  /** Writing a `long` out in decimal and reading it back with toBytes gives it back. */
  lemma DecimalRoundTrip(n: nat)
    requires n <= LONG_MAX
    ensures ToBytes(DecimalString(n)) == Ok(n)
  {
    PlainDigitsAreBytes(DecimalString(n));
  }
}
