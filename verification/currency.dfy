/** Reading operator-typed amounts (`utils/CurrencyUtils.java`, `parse`). */
module Currency {
  import opened Wrappers
  import opened Digits
  import opened Strings

  /** The characters the cleaning step keeps: ASCII digits, ',' and '.'. */
  predicate IsKept(c: char) {
    IsDigit(c) || c == ',' || c == '.'
  }

  /** Only digits and dots: what is left after cleaning. */
  predicate IsNumeral(s: string) {
    forall i :: 0 <= i < |s| ==> IsDigit(s[i]) || s[i] == '.'
  }

  /** Deletes every character that is not kept (`replaceAll("[^\\d,.]", "")`). */
  function StripToNumeric(s: string): (r: string)
    ensures forall i :: 0 <= i < |r| ==> IsKept(r[i])
    ensures |r| <= |s|
    ensures (forall i :: 0 <= i < |s| ==> IsKept(s[i])) ==> r == s
    ensures (forall i :: 0 <= i < |s| ==> !IsKept(s[i])) ==> r == ""
  {
    if |s| == 0 then ""
    else (if IsKept(s[0]) then [s[0]] else []) + StripToNumeric(s[1..])
  }

  /** Replaces every ',' by '.' (`replace(",", ".")`). */
  function CommasToDots(s: string): (r: string)
    ensures |r| == |s|
    ensures forall i :: 0 <= i < |s| ==> r[i] == if s[i] == ',' then '.' else s[i]
  {
    seq(|s|, i requires 0 <= i < |s| => if s[i] == ',' then '.' else s[i])
  }

  /** The cleaned text handed to `new BigDecimal`. */
  function Clean(s: string): (r: string)
    ensures IsNumeral(r)
    ensures |r| <= |s|
  {
    CommasToDots(StripToNumeric(s))
  }

  function CountDots(s: string): nat {
    if |s| == 0 then 0 else (if s[0] == '.' then 1 else 0) + CountDots(s[1..])
  }

  function CountDigits(s: string): nat {
    if |s| == 0 then 0 else (if IsDigit(s[0]) then 1 else 0) + CountDigits(s[1..])
  }

  /**
   * `new BigDecimal(s)` on a string of digits and dots: an integer part, an
   * optional '.' and an optional fraction part, with at least one digit in
   * all; anything else is a `NumberFormatException` (`None`).
   */
  function ReadDecimal(s: string): (r: Option<real>)
    requires IsNumeral(s)
    ensures r.Some? <==> CountDigits(s) >= 1 && CountDots(s) <= 1
    ensures r.Some? ==> r.value >= 0.0
  {
    var k := IndexOf(s, '.');
    CountSplit(s, k);
    if k == |s| then
      NoDotsAllDigits(s);
      if |s| == 0 then None else Some(DigitsValue(s) as real)
    else
      var whole := s[..k];
      var fraction := s[k + 1..];
      assert s[k..] == [s[k]] + fraction;
      CountSplit(s[k..], 1);
      assert s[k..][1..] == fraction;
      NoDotsAllDigits(whole);
      if IndexOf(fraction, '.') < |fraction| then
        CountSplit(fraction, IndexOf(fraction, '.'));
        CountSplit(fraction[IndexOf(fraction, '.')..], 1);
        None
      else
        CountSplit(fraction, |fraction|);
        NoDotsAllDigits(fraction);
        if |whole| == 0 && |fraction| == 0 then None
        else Some(PointValue(whole, fraction))
  }

  /** The value of "whole.fraction" for digit strings: whole + fraction / 10^|fraction|. */
  function PointValue(whole: string, fraction: string): (v: real)
    requires AllDigits(whole) && AllDigits(fraction)
    ensures v >= DigitsValue(whole) as real
  {
    DigitsValue(whole) as real + DigitsValue(fraction) as real / Pow10(|fraction|) as real
  }

  /**
   * `CurrencyUtils.parse`: `null` or empty text is zero; otherwise the
   * cleaned text is read as a decimal, and zero stands in for text that does
   * not read. Since '-' is always stripped the result is never negative.
   */
  function Parse(text: Option<string>): (r: real)
    ensures r >= 0.0
    ensures text == None || text == Some("") ==> r == 0.0
    ensures text.Some? && ReadDecimal(Clean(text.value)).Some? ==> r == ReadDecimal(Clean(text.value)).value
    ensures text.Some? && ReadDecimal(Clean(text.value)).None? ==> r == 0.0
  {
    match text
    case None => 0.0
    case Some(s) =>
      if |s| == 0 then 0.0
      else
        match ReadDecimal(Clean(s))
        case Some(v) => v
        case None => 0.0
  }

  // ---------------------------------------------------------------- helper facts

  lemma {:induction false} CountSplit(s: string, k: nat)
    requires k <= |s|
    ensures CountDots(s) == CountDots(s[..k]) + CountDots(s[k..])
    ensures CountDigits(s) == CountDigits(s[..k]) + CountDigits(s[k..])
  {
    if k > 0 {
      assert s[..k][1..] == s[1..][..k - 1];
      assert s[k..] == s[1..][k - 1..];
      CountSplit(s[1..], k - 1);
    }
  }

  lemma {:induction false} NoDotsAllDigits(s: string)
    requires IsNumeral(s) && IndexOf(s, '.') == |s|
    ensures AllDigits(s) && CountDots(s) == 0 && CountDigits(s) == |s|
  {
    if |s| > 0 {
      NoDotsAllDigits(s[1..]);
    }
  }

  lemma {:induction false} StripConcat(a: string, b: string)
    ensures StripToNumeric(a + b) == StripToNumeric(a) + StripToNumeric(b)
  {
    if |a| > 0 {
      assert (a + b)[1..] == a[1..] + b;
      StripConcat(a[1..], b);
    } else {
      assert a + b == b;
    }
  }

  // ---------------------------------------------------------------- properties

  /** A non-empty string of digits reads as its integer value. */
  lemma ReadDecimalOfDigits(s: string)
    requires AllDigits(s) && |s| > 0
    ensures IsNumeral(s) && ReadDecimal(s) == Some(DigitsValue(s) as real)
  {
    assert IndexOf(s, '.') == |s|;
  }

  /** Cleaning leaves a string of digits unchanged. */
  lemma CleanOfDigits(s: string)
    requires AllDigits(s)
    ensures Clean(s) == s
  {
    assert StripToNumeric(s) == s;
    assert CommasToDots(s) == s;
  }

  /**
   * A rendered whole number surrounded by text with no digit, ',' or '.'
   * reads back as that number: "Rp 50000" is 50000.
   */
  lemma {:induction false} ParseReadsWholeNumber(prefix: string, n: nat, suffix: string)
    requires forall i :: 0 <= i < |prefix| ==> !IsKept(prefix[i])
    requires forall i :: 0 <= i < |suffix| ==> !IsKept(suffix[i])
    ensures Parse(Some(prefix + NatToString(n) + suffix)) == n as real
  {
    var digits := NatToString(n);
    var text := prefix + digits + suffix;
    StripConcat(prefix + digits, suffix);
    StripConcat(prefix, digits);
    assert StripToNumeric(prefix) == "" && StripToNumeric(suffix) == "";
    assert StripToNumeric(digits) == digits;
    assert StripToNumeric(text) == digits;
    CleanOfDigits(digits);
    assert Clean(text) == digits;
    ReadDecimalOfDigits(digits);
    NatToStringRoundTrip(n);
  }

  /** Digits, one '.', digits (at least one digit in all) read as whole part plus fraction. */
  lemma ReadDecimalWithPoint(whole: string, fraction: string)
    requires AllDigits(whole) && AllDigits(fraction) && |whole| + |fraction| > 0
    ensures IsNumeral(whole + "." + fraction)
    ensures ReadDecimal(whole + "." + fraction) == Some(PointValue(whole, fraction))
  {
    var s := whole + "." + fraction;
    var k := IndexOf(s, '.');
    assert s[|whole|] == '.';
    assert forall j :: 0 <= j < |whole| ==> s[j] == whole[j];
    assert k == |whole|;
    assert s[..k] == whole && s[k + 1..] == fraction;
    assert IndexOf(fraction, '.') == |fraction|;
  }

  /** A second '.' makes the text unreadable. */
  lemma ReadDecimalTwoPoints(a: string, b: string, c: string)
    requires AllDigits(a) && AllDigits(b) && AllDigits(c)
    ensures IsNumeral(a + "." + b + "." + c)
    ensures ReadDecimal(a + "." + b + "." + c) == None
  {
    var s := a + "." + b + "." + c;
    CountSplit(s, |a|);
    assert s[|a|..] == "." + (b + "." + c);
    assert s[|a|..][1..] == b + "." + c;
    CountSplit(b + "." + c, |b|);
    assert (b + "." + c)[|b|..] == "." + c;
  }

  /** Worked input: the currency prefix of "Rp 50000" is stripped, leaving 50000. */
  lemma ParseCurrencyPrefixExample(text: string)
    requires text == "Rp 50000"
    ensures Parse(Some(text)) == 50000.0
  {
    var prefix := "Rp ";
    assert text == prefix + NatToString(50000) + "" by {
      assert NatToString(50000) == "50000";
    }
    assert forall i :: 0 <= i < |prefix| ==> !IsKept(prefix[i]) by {
      assert prefix == ['R', 'p', ' '];
    }
    ParseReadsWholeNumber(prefix, 50000, "");
  }

  /** Text without a single digit (such as "abc" or "-") reads as zero. */
  lemma {:induction false} ParseWithoutDigits(text: string)
    requires forall i :: 0 <= i < |text| ==> !IsDigit(text[i])
    ensures Parse(Some(text)) == 0.0
  {
    StripWithoutDigits(text);
    NoDigitsCountsZero(Clean(text));
  }

  lemma {:induction false} StripWithoutDigits(s: string)
    requires forall i :: 0 <= i < |s| ==> !IsDigit(s[i])
    ensures forall i :: 0 <= i < |StripToNumeric(s)| ==> !IsDigit(StripToNumeric(s)[i])
  {
    if |s| > 0 {
      StripWithoutDigits(s[1..]);
    }
  }

  lemma {:induction false} NoDigitsCountsZero(s: string)
    requires forall i :: 0 <= i < |s| ==> !IsDigit(s[i])
    ensures CountDigits(s) == 0
  {
    if |s| > 0 {
      NoDigitsCountsZero(s[1..]);
    }
  }

  /** Cleaning leaves digits-and-dots text unchanged. */
  lemma CleanOfNumeral(s: string)
    requires IsNumeral(s)
    ensures Clean(s) == s
  {
    assert StripToNumeric(s) == s;
    assert CommasToDots(s) == s;
  }

  /** A ',' between two digit strings is cleaned into a '.'. */
  lemma CleanOfComma(whole: string, fraction: string)
    requires AllDigits(whole) && AllDigits(fraction)
    ensures Clean(whole + "," + fraction) == whole + "." + fraction
  {
    var s := whole + "," + fraction;
    assert StripToNumeric(s) == s by {
      assert forall i :: 0 <= i < |s| ==> IsKept(s[i]) by {
        forall i | 0 <= i < |s| ensures IsKept(s[i]) {
          if i < |whole| {
            assert s[i] == whole[i];
          } else if i > |whole| {
            assert s[i] == fraction[i - |whole| - 1];
          }
        }
      }
    }
    CommasToDotsConcat(whole + ",", fraction);
    CommasToDotsConcat(whole, ",");
    CommasToDotsOfDigits(whole);
    CommasToDotsOfDigits(fraction);
    assert CommasToDots(",") == ".";
  }

  /** Digits have no commas to replace. */
  lemma CommasToDotsOfDigits(s: string)
    requires AllDigits(s)
    ensures CommasToDots(s) == s
  {
  }

  /**
   * Digits, one separator (',' or '.'), digits: the separator is read as a
   * decimal point, so "10.000" is ten, not ten thousand.
   */
  lemma ParseSeparatedNumber(whole: string, sep: char, fraction: string)
    requires AllDigits(whole) && AllDigits(fraction) && |whole| + |fraction| > 0
    requires sep == ',' || sep == '.'
    ensures Parse(Some(whole + [sep] + fraction)) == PointValue(whole, fraction)
  {
    var s := whole + [sep] + fraction;
    if sep == '.' {
      assert s == whole + "." + fraction;
      CleanOfNumeral(s);
    } else {
      assert s == whole + "," + fraction;
      CleanOfComma(whole, fraction);
    }
    ReadDecimalWithPoint(whole, fraction);
  }

  /** Two separators anywhere make the text unreadable, so it counts as zero. */
  lemma ParseTwoSeparators(a: string, sep1: char, b: string, sep2: char, c: string)
    requires AllDigits(a) && AllDigits(b) && AllDigits(c)
    requires sep1 == ',' || sep1 == '.'
    requires sep2 == ',' || sep2 == '.'
    ensures Parse(Some(a + [sep1] + b + [sep2] + c)) == 0.0
  {
    var s := a + [sep1] + b + [sep2] + c;
    assert StripToNumeric(s) == s;
    CommasToDotsConcat(a + [sep1] + b + [sep2], c);
    CommasToDotsConcat(a + [sep1] + b, [sep2]);
    CommasToDotsConcat(a + [sep1], b);
    CommasToDotsConcat(a, [sep1]);
    assert CommasToDots(a) == a && CommasToDots(b) == b && CommasToDots(c) == c;
    assert CommasToDots([sep1]) == "." && CommasToDots([sep2]) == ".";
    assert Clean(s) == a + "." + b + "." + c;
    ReadDecimalTwoPoints(a, b, c);
  }

  lemma CommasToDotsConcat(x: string, y: string)
    ensures CommasToDots(x + y) == CommasToDots(x) + CommasToDots(y)
  {
  }

  /** Worked input: "10.000" (ten thousand, Indonesian style) is read as 10. */
  lemma ParseThousandsSeparatorExample(text: string)
    requires text == "10.000"
    ensures Parse(Some(text)) == 10.0
  {
    assert text == "10" + ['.'] + "000";
    ParseSeparatedNumber("10", '.', "000");
    TenPointZeros("10", "000");
  }

  /** "10" and "000" around a point make ten. */
  lemma TenPointZeros(whole: string, fraction: string)
    requires whole == "10" && fraction == "000"
    ensures PointValue(whole, fraction) == 10.0
  {
    assert DigitsValue(whole) == 10 by {
      assert whole[..1] == "1";
    }
    assert DigitsValue(fraction) == 0 by {
      ZerosValue(3);
      assert Repeat('0', 3) == fraction;
    }
  }

  /** Worked input: "1.000.000" has two separators and is read as 0. */
  lemma ParseTwoSeparatorsExample(text: string)
    requires text == "1.000.000"
    ensures Parse(Some(text)) == 0.0
  {
    assert text == "1" + ['.'] + "000" + ['.'] + "000";
    ParseTwoSeparators("1", '.', "000", '.', "000");
  }
}
