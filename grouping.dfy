/** Python's thousands-grouped integer rendering, `f"{n:,}"`, for a natural number:
    the decimal digits of `n`, with a comma inserted before every group of three
    digits counted from the right. */
module Grouping {
  import opened Wrappers

  predicate IsDigit(c: char) {
    '0' <= c <= '9'
  }

  predicate AllDigits(s: string) {
    forall i :: 0 <= i < |s| ==> IsDigit(s[i])
  }

  /** Every character is a digit or a comma. */
  predicate DigitsOrCommas(s: string) {
    forall i :: 0 <= i < |s| ==> IsDigit(s[i]) || s[i] == ','
  }

  function DigitChar(d: nat): (c: char)
    requires d < 10
    ensures IsDigit(c)
  {
    (d + '0' as int) as char
  }

  function DigitValue(c: char): (d: nat)
    requires IsDigit(c)
    ensures d < 10
  {
    c as int - '0' as int
  }

  lemma DigitValueOfDigitChar(d: nat)
    requires d < 10
    ensures DigitValue(DigitChar(d)) == d
  {
  }

  /** The plain decimal form of `n`, Python's `str(n)`. */
  function Decimal(n: nat): (s: string)
    ensures 1 <= |s| && AllDigits(s)
  {
    if n < 10 then [DigitChar(n)] else Decimal(n / 10) + [DigitChar(n % 10)]
  }

  /** The value of a string of decimal digits (the empty string reads as 0). */
  function ParseDecimal(s: string): nat
    requires AllDigits(s)
  {
    if s == [] then 0 else ParseDecimal(s[..|s| - 1]) * 10 + DigitValue(s[|s| - 1])
  }

  /** Three digits with leading zeros: every group after the first. */
  function Pad3(k: nat): (s: string)
    requires k < 1000
    ensures |s| == 3 && AllDigits(s)
  {
    [DigitChar(k / 100), DigitChar(k / 10 % 10), DigitChar(k % 10)]
  }

  /** `f"{n:,}"` for a natural number `n`. */
  function FormatGrouped(n: nat): (s: string)
    ensures 1 <= |s| && DigitsOrCommas(s)
  {
    if n < 1000 then Decimal(n) else FormatGrouped(n / 1000) + "," + Pad3(n % 1000)
  }

  /** `s` with every comma removed. */
  function StripCommas(s: string): string {
    if s == [] then [] else StripCommas(s[..|s| - 1]) + (if s[|s| - 1] == ',' then [] else [s[|s| - 1]])
  }

  /** The grouped form of a positive number, read from the right: a first group of
      one to three digits that does not start with `'0'`, then any number of groups
      of a comma followed by exactly three digits. */
  predicate PositiveGrouped(s: string)
    decreases |s|
  {
    || (1 <= |s| <= 3 && AllDigits(s) && s[0] != '0')
    || (|s| >= 5 && s[|s| - 4] == ',' && AllDigits(s[|s| - 3..]) && PositiveGrouped(s[..|s| - 4]))
  }

  /** The texts `f"{n:,}"` can produce: `"0"`, or the grouped form of a positive number. */
  predicate WellGrouped(s: string) {
    s == "0" || PositiveGrouped(s)
  }

  /** Reads a grouped number back; anything that is not well grouped is refused,
      and the number read renders as the very text it was read from. */
  function ParseGrouped(s: string): (r: Option<nat>)
    ensures r.Some? <==> WellGrouped(s)
    ensures r.Some? ==> FormatGrouped(r.value) == s
  {
    if WellGrouped(s) then
      WellGroupedStripsToDigits(s);
      FormatWellGrouped(s);
      Some(ParseDecimal(StripCommas(s)))
    else
      None
  }

  lemma {:induction false} ParseDecimalOfDecimal(n: nat)
    ensures ParseDecimal(Decimal(n)) == n
  {
    var s := Decimal(n);
    if n < 10 {
      DigitValueOfDigitChar(n);
    } else {
      assert s[..|s| - 1] == Decimal(n / 10);
      ParseDecimalOfDecimal(n / 10);
      DigitValueOfDigitChar(n % 10);
    }
  }

  lemma {:induction false} StripCommasAppend(a: string, b: string)
    ensures StripCommas(a + b) == StripCommas(a) + StripCommas(b)
    decreases |b|
  {
    if b == [] {
      assert a + b == a;
    } else {
      var c := b[|b| - 1];
      assert (a + b)[..|a + b| - 1] == a + b[..|b| - 1];
      StripCommasAppend(a, b[..|b| - 1]);
    }
  }

  lemma {:induction false} StripCommasOfDigits(s: string)
    requires AllDigits(s)
    ensures StripCommas(s) == s
    decreases |s|
  {
    if s != [] {
      StripCommasOfDigits(s[..|s| - 1]);
    }
  }

  lemma {:induction false} StripCommasKeepsDigits(s: string)
    requires DigitsOrCommas(s)
    ensures AllDigits(StripCommas(s))
    decreases |s|
  {
    if s != [] {
      StripCommasKeepsDigits(s[..|s| - 1]);
    }
  }

  lemma {:induction false} PositiveGroupedChars(s: string)
    requires PositiveGrouped(s)
    ensures DigitsOrCommas(s)
    decreases |s|
  {
    if !(1 <= |s| <= 3 && AllDigits(s)) {
      var p := s[..|s| - 4];
      PositiveGroupedChars(p);
      assert s == p + "," + s[|s| - 3..];
    }
  }

  lemma WellGroupedStripsToDigits(s: string)
    requires WellGrouped(s)
    ensures AllDigits(StripCommas(s))
  {
    if s == "0" {
      StripCommasOfDigits(s);
    } else {
      PositiveGroupedChars(s);
      StripCommasKeepsDigits(s);
    }
  }

  function Pow10(k: nat): (p: nat)
    ensures p >= 1
  {
    if k == 0 then 1 else 10 * Pow10(k - 1)
  }

  /** A string of k digits reads as less than 10^k. */
  lemma {:induction false} ParseDecimalBelow(s: string)
    requires AllDigits(s)
    ensures ParseDecimal(s) < Pow10(|s|)
    decreases |s|
  {
    if s != [] {
      ParseDecimalBelow(s[..|s| - 1]);
    }
  }

  /** Digits that do not start with `'0'` read as a positive number. */
  lemma {:induction false} ParseDecimalPositive(s: string)
    requires 1 <= |s| && AllDigits(s) && s[0] != '0'
    ensures ParseDecimal(s) >= 1
    decreases |s|
  {
    if |s| > 1 {
      ParseDecimalPositive(s[..|s| - 1]);
    }
  }

  lemma DigitCharOfDigitValue(c: char)
    requires IsDigit(c)
    ensures DigitChar(DigitValue(c)) == c
  {
  }

  /** Digits without a leading zero are the decimal form of the number they read as. */
  lemma {:induction false} DecimalOfParseDecimal(s: string)
    requires 1 <= |s| && AllDigits(s) && (|s| == 1 || s[0] != '0')
    ensures Decimal(ParseDecimal(s)) == s
    decreases |s|
  {
    var t, c := s[..|s| - 1], s[|s| - 1];
    DigitCharOfDigitValue(c);
    if |s| == 1 {
      assert s == [c];
    } else {
      DecimalOfParseDecimal(t);
      ParseDecimalPositive(t);
      assert s == t + [c];
    }
  }

  /** Appending a three-digit group multiplies by 1000 and adds the group's value. */
  lemma ParseDecimalGroup(a: string, g: string)
    requires AllDigits(a) && |g| == 3 && AllDigits(g)
    ensures ParseDecimal(a + g) ==
      ParseDecimal(a) * 1000 + DigitValue(g[0]) * 100 + DigitValue(g[1]) * 10 + DigitValue(g[2])
  {
    var s1, s2, s3 := a + g[..1], a + g[..2], a + g;
    assert s3[..|s3| - 1] == s2 && s3[|s3| - 1] == g[2];
    assert s2[..|s2| - 1] == s1 && s2[|s2| - 1] == g[1];
    assert s1[..|s1| - 1] == a && s1[|s1| - 1] == g[0];
    assert ParseDecimal(s1) == ParseDecimal(a) * 10 + DigitValue(g[0]);
    assert ParseDecimal(s2) == ParseDecimal(s1) * 10 + DigitValue(g[1]);
    assert ParseDecimal(s3) == ParseDecimal(s2) * 10 + DigitValue(g[2]);
  }

  /** A group of three digits is `Pad3` of its value. */
  lemma Pad3OfGroup(g: string)
    requires |g| == 3 && AllDigits(g)
    ensures ParseDecimal(g) < 1000 && Pad3(ParseDecimal(g)) == g
  {
    ParseDecimalGroup([], g);
    assert [] + g == g;
    var d0, d1, d2 := DigitValue(g[0]), DigitValue(g[1]), DigitValue(g[2]);
    var k := d0 * 100 + d1 * 10 + d2;
    assert k / 100 == d0;
    assert k / 10 == d0 * 10 + d1;
    assert k / 10 % 10 == d1;
    assert k % 10 == d2;
    DigitCharOfDigitValue(g[0]);
    DigitCharOfDigitValue(g[1]);
    DigitCharOfDigitValue(g[2]);
  }

  /** A number's value with a three-digit group appended. */
  lemma ParseDecimalAppendGroup(a: string, g: string)
    requires AllDigits(a) && |g| == 3 && AllDigits(g)
    ensures AllDigits(a + g)
    ensures ParseDecimal(a + g) == ParseDecimal(a) * 1000 + ParseDecimal(g)
  {
    ParseDecimalGroup(a, g);
    ParseDecimalGroup([], g);
    assert [] + g == g;
  }

  /** One to three digits without a leading zero render as themselves. */
  lemma FormatFirstGroup(s: string)
    requires 1 <= |s| <= 3 && AllDigits(s) && s[0] != '0'
    ensures ParseDecimal(s) >= 1 && FormatGrouped(ParseDecimal(s)) == s
  {
    ParseDecimalPositive(s);
    ParseDecimalBelow(s);
    assert Pow10(|s|) <= 1000;
    DecimalOfParseDecimal(s);
  }

  /** Appending a comma and a three-digit group to the rendering of a positive
      number renders the number with that group appended. */
  lemma FormatNextGroup(d: string, p: string, g: string)
    requires AllDigits(d) && ParseDecimal(d) >= 1 && FormatGrouped(ParseDecimal(d)) == p
    requires |g| == 3 && AllDigits(g)
    ensures AllDigits(d + g)
    ensures ParseDecimal(d + g) >= 1 && FormatGrouped(ParseDecimal(d + g)) == p + "," + g
  {
    ParseDecimalAppendGroup(d, g);
    Pad3OfGroup(g);
    var v, k, n := ParseDecimal(d), ParseDecimal(g), ParseDecimal(d + g);
    assert n / 1000 == v && n % 1000 == k;
  }

  /** Removing the commas of `p + "," + g`, where `g` is three digits. */
  lemma StripCommasGroup(p: string, g: string)
    requires |g| == 3 && AllDigits(g)
    ensures StripCommas(p + "," + g) == StripCommas(p) + g
  {
    StripCommasAppend(p + ",", g);
    StripCommasAppend(p, ",");
    assert StripCommas(",") == [] by {
      assert ","[..0] == [];
    }
    StripCommasOfDigits(g);
  }

  /** The grouped form of a positive number reads as a positive number that renders
      back as the same text. */
  lemma {:induction false} FormatPositiveGrouped(s: string)
    requires PositiveGrouped(s)
    ensures AllDigits(StripCommas(s))
    ensures ParseDecimal(StripCommas(s)) >= 1
    ensures FormatGrouped(ParseDecimal(StripCommas(s))) == s
    decreases |s|
  {
    if 1 <= |s| <= 3 && AllDigits(s) && s[0] != '0' {
      StripCommasOfDigits(s);
      FormatFirstGroup(s);
    } else {
      var p, g := s[..|s| - 4], s[|s| - 3..];
      assert s == p + "," + g;
      FormatPositiveGrouped(p);
      StripCommasGroup(p, g);
      FormatNextGroup(StripCommas(p), p, g);
    }
  }

  lemma FormatZero()
    ensures AllDigits(StripCommas("0")) && FormatGrouped(ParseDecimal(StripCommas("0"))) == "0"
  {
    StripCommasOfDigits("0");
    assert "0"[..0] == [];
  }

  /** A well-grouped text is the rendering of the number it reads as. */
  lemma FormatWellGrouped(s: string)
    requires WellGrouped(s)
    ensures AllDigits(StripCommas(s))
    ensures FormatGrouped(ParseDecimal(StripCommas(s))) == s
  {
    if s == "0" {
      FormatZero();
    } else {
      FormatPositiveGrouped(s);
    }
  }

  /** The last three decimal digits of `n` are `Pad3(n % 1000)`. */
  lemma DecimalSplit(n: nat)
    requires n >= 1000
    ensures Decimal(n) == Decimal(n / 1000) + Pad3(n % 1000)
  {
    var q, r := n / 1000, n % 1000;
    assert n / 10 == 100 * q + r / 10;
    assert n / 100 == 10 * q + r / 100;
    assert n / 10 / 10 == n / 100;
    assert n / 100 / 10 == q;
    assert n % 10 == r % 10;
    assert n / 10 % 10 == r / 10 % 10;
    assert n / 100 % 10 == r / 100;
    calc {
      Decimal(n);
      Decimal(n / 10) + [DigitChar(n % 10)];
      Decimal(n / 100) + [DigitChar(n / 10 % 10)] + [DigitChar(n % 10)];
      Decimal(q) + [DigitChar(n / 100 % 10)] + [DigitChar(n / 10 % 10)] + [DigitChar(n % 10)];
      Decimal(q) + Pad3(r);
    }
  }

  lemma DecimalShort(n: nat)
    requires n < 1000
    ensures |Decimal(n)| <= 3
  {
    if n >= 10 {
      var m := n / 10;
      assert m < 100;
      if m >= 10 {
        assert m / 10 < 10;
        assert |Decimal(m / 10)| == 1;
        assert |Decimal(m)| == 2;
      }
      assert |Decimal(m)| <= 2;
    }
  }

  /** Removing the commas gives the plain decimal form. */
  lemma {:induction false} StripFormatGrouped(n: nat)
    ensures StripCommas(FormatGrouped(n)) == Decimal(n)
    decreases n
  {
    if n < 1000 {
      StripCommasOfDigits(Decimal(n));
    } else {
      var q, r := n / 1000, n % 1000;
      StripFormatGrouped(q);
      StripCommasGroup(FormatGrouped(q), Pad3(r));
      DecimalSplit(n);
    }
  }

  /** The decimal form of a positive number does not start with `'0'`. */
  lemma {:induction false} DecimalLeading(n: nat)
    requires n >= 1
    ensures Decimal(n)[0] != '0'
    decreases n
  {
    if n >= 10 {
      DecimalLeading(n / 10);
    }
  }

  lemma {:induction false} FormatGroupedPositive(n: nat)
    requires n >= 1
    ensures PositiveGrouped(FormatGrouped(n))
    decreases n
  {
    if n < 1000 {
      DecimalShort(n);
      DecimalLeading(n);
    } else {
      var s, p := FormatGrouped(n), FormatGrouped(n / 1000);
      FormatGroupedPositive(n / 1000);
      assert s[..|s| - 4] == p;
      assert s[|s| - 3..] == Pad3(n % 1000);
    }
  }

  /** The first group has one to three digits and no leading zero (unless the
      number is 0), every later one exactly three. */
  lemma FormatGroupedWellGrouped(n: nat)
    ensures WellGrouped(FormatGrouped(n))
  {
    if n >= 1 {
      FormatGroupedPositive(n);
    }
  }

  /** Reading the rendered number back gives the number. */
  lemma ParseFormatGrouped(n: nat)
    ensures ParseGrouped(FormatGrouped(n)) == Some(n)
  {
    FormatGroupedWellGrouped(n);
    StripFormatGrouped(n);
    ParseDecimalOfDecimal(n);
  }
}
