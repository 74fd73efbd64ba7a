/**
 * Java's 32-bit `int` as it crosses the text boundary: `Integer.parseInt(s)`
 * in radix 10, which reads an environment value, and the decimal rendering
 * that string concatenation (`"..." + port`) applies to an `int`.
 * Only the ASCII digits '0'..'9' are modelled as digits.
 */
module JavaInt {
  import opened Wrappers

  /** Java's `int`: a 32-bit two's-complement integer. */
  newtype int32 = x: int | -0x8000_0000 <= x < 0x8000_0000

  const MinValue: int := -0x8000_0000
  const MaxValue: int := 0x7fff_ffff

  /** Java's `NumberFormatException`, carrying the rejected input as its message does. */
  datatype ParseError = NumberFormat(input: string)

  predicate IsDigit(c: char) {
    '0' <= c <= '9'
  }

  predicate IsSign(c: char) {
    c == '+' || c == '-'
  }

  predicate AllDigits(s: string) {
    forall i :: 0 <= i < |s| ==> IsDigit(s[i])
  }

  /** A non-empty digit string with no superfluous leading zero. */
  predicate NoLeadingZero(s: string) {
    |s| > 0 && (s[0] == '0' ==> |s| == 1)
  }

  function DigitValue(c: char): (d: nat)
    requires IsDigit(c)
    ensures d < 10
  {
    (c as int) - ('0' as int)
  }

  function DigitChar(d: nat): (c: char)
    requires d < 10
    ensures IsDigit(c) && DigitValue(c) == d
  {
    (('0' as int) + d) as char
  }

  /** The value of a digit string read most significant digit first. */
  function DigitsValue(s: string): nat
    requires AllDigits(s)
  {
    if s == [] then 0 else 10 * DigitsValue(s[..|s| - 1]) + DigitValue(s[|s| - 1])
  }

  /** The text after an optional leading sign: the part `parseInt` reads as digits. */
  function Unsigned(s: string): string {
    if |s| > 0 && IsSign(s[0]) then s[1..] else s
  }

  /**
   * `Integer.parseInt(s)`: an optional '+' or '-', then one or more digits,
   * whose signed value must lie in [-2^31, 2^31 - 1]; anything else throws
   * `NumberFormatException`.
   */
  function ParseInt(s: string): (r: Result<int32, ParseError>)
    ensures r.Failure? ==> r.error == NumberFormat(s)
    ensures r.Success? ==> |Unsigned(s)| > 0 && AllDigits(Unsigned(s))
    ensures r.Success? ==> (r.value < 0 ==> s[0] == '-')
  {
    var digits := Unsigned(s);
    if digits == [] || !AllDigits(digits) then Failure(NumberFormat(s))
    else
      var m: int := DigitsValue(digits);
      var v := if s[0] == '-' then -m else m;
      if MinValue <= v <= MaxValue then Success(v as int32) else Failure(NumberFormat(s))
  }

  /** The decimal digits of `n`, most significant first, with no leading zero. */
  function NatToDigits(n: nat): (r: string)
    ensures AllDigits(r) && NoLeadingZero(r)
    ensures DigitsValue(r) == n
  {
    if n < 10 then [DigitChar(n)]
    else
      var r := NatToDigits(n / 10) + [DigitChar(n % 10)];
      assert r[..|r| - 1] == NatToDigits(n / 10);
      r
  }

  /**
   * The canonical decimal text of an int: a '-' only for negative values,
   * then digits with no leading zero (so zero is "0", never "-0").
   */
  predicate IsCanonical(s: string) {
    var digits := if |s| > 0 && s[0] == '-' then s[1..] else s;
    AllDigits(digits) && NoLeadingZero(digits) && (|s| > 0 && s[0] == '-' ==> digits != "0")
  }

  /** `Integer.toString(n)`, what `"..." + n` inserts: canonical decimal text. */
  function Render(n: int32): (r: string)
    ensures IsCanonical(r)
    ensures (|r| > 0 && r[0] == '-') <==> n < 0
    ensures forall i :: 0 <= i < |r| ==> r[i] == '-' || IsDigit(r[i])
  {
    if n < 0 then
      var r := "-" + NatToDigits(-(n as int));
      assert r[1..] == NatToDigits(-(n as int));
      r
    else NatToDigits(n as int)
  }

  /** The rendering of an int parses back to that int. */
  lemma ParseRender(n: int32)
    ensures ParseInt(Render(n)) == Success(n)
  {
    var r := Render(n);
    if n < 0 {
      assert Unsigned(r) == NatToDigits(-(n as int));
    } else {
      assert Unsigned(r) == NatToDigits(n as int);
    }
  }

  /** A digit string whose first digit is not '0' has a positive value. */
  lemma {:induction false} DigitsValuePositive(s: string)
    requires AllDigits(s) && |s| > 0 && s[0] != '0'
    ensures DigitsValue(s) > 0
  {
    if |s| > 1 {
      var init := s[..|s| - 1];
      assert init[0] == s[0];
      DigitsValuePositive(init);
    }
  }

  /** Reading a canonical digit string and writing the number back gives the same text. */
  lemma {:induction false} DigitsRoundTrip(s: string)
    requires AllDigits(s) && NoLeadingZero(s)
    ensures NatToDigits(DigitsValue(s)) == s
  {
    var last := s[|s| - 1];
    if |s| == 1 {
      assert DigitChar(DigitValue(last)) == last;
      assert [last] == s;
    } else {
      var init := s[..|s| - 1];
      assert init[0] == s[0];
      DigitsValuePositive(init);
      DigitsRoundTrip(init);
      var n := DigitsValue(s);
      assert n / 10 == DigitsValue(init) && n % 10 == DigitValue(last);
      assert DigitChar(DigitValue(last)) == last;
      assert init + [last] == s;
    }
  }

  /** Canonical text is the rendering of the value it parses to, so `Render` is its only writer. */
  lemma RenderParse(s: string)
    requires IsCanonical(s) && ParseInt(s).Success?
    ensures Render(ParseInt(s).value) == s
  {
    if s[0] == '-' {
      RenderParseNegative(s);
    } else {
      DigitsRoundTrip(s);
    }
  }

  /** The negative case of `RenderParse`: "-" followed by canonical nonzero digits. */
  lemma RenderParseNegative(s: string)
    requires IsCanonical(s) && ParseInt(s).Success? && s[0] == '-'
    ensures Render(ParseInt(s).value) == s
  {
    var digits := s[1..];
    assert Unsigned(s) == digits;
    var m: int := DigitsValue(digits);
    assert ParseInt(s).value as int == -m;
    assert digits[0] != '0';
    DigitsValuePositive(digits);
    DigitsRoundTrip(digits);
    assert Render(ParseInt(s).value) == "-" + NatToDigits(m);
    assert "-" + digits == s;
  }

  /** A leading '0' does not change the value of a digit string. */
  lemma {:induction false} LeadingZeroValue(s: string)
    requires AllDigits(s)
    ensures AllDigits("0" + s) && DigitsValue("0" + s) == DigitsValue(s)
  {
    var z := "0" + s;
    if s != [] {
      assert z[..|z| - 1] == "0" + s[..|s| - 1];
      LeadingZeroValue(s[..|s| - 1]);
    }
  }

  /** `a` and `b` are accepted alike, and as the same value when accepted. */
  predicate SameParse(a: string, b: string) {
    ParseInt(a).Success? == ParseInt(b).Success? &&
    (ParseInt(a).Success? ==> ParseInt(a).value == ParseInt(b).value)
  }

  /** A '+' in front of a digit string is accepted and dropped. */
  lemma PlusSign(s: string)
    requires |s| > 0 && AllDigits(s)
    ensures SameParse("+" + s, s)
  {
    assert Unsigned("+" + s) == s;
  }

  /** A leading zero is accepted and dropped, after a '-' as well as with no sign. */
  lemma LeadingZero(s: string)
    requires |s| > 0 && AllDigits(s)
    ensures SameParse("0" + s, s)
    ensures SameParse("-0" + s, "-" + s)
  {
    LeadingZeroValue(s);
    assert Unsigned("-0" + s) == "0" + s;
    assert Unsigned("-" + s) == s;
  }

  /** "+0" in front of a digit string changes neither acceptance nor value. */
  lemma PlusAndLeadingZero(s: string)
    requires |s| > 0 && AllDigits(s)
    ensures SameParse("+0" + s, s)
  {
    assert "+" + ("0" + s) == "+0" + s;
    assert SameParse("0" + s, s) by { LeadingZero(s); }
    PlusSign("0" + s);
  }

  /** A character that is neither a digit nor a leading sign makes the parse throw; this covers whitespace. */
  lemma ParseRejectsNonDigit(s: string, i: nat)
    requires i < |s| && !IsDigit(s[i]) && !(i == 0 && IsSign(s[i]))
    ensures ParseInt(s) == Failure(NumberFormat(s))
  {
    if IsSign(s[0]) {
      assert Unsigned(s)[i - 1] == s[i];
    } else {
      assert Unsigned(s)[i] == s[i];
    }
  }

  /** The empty string and a bare sign make the parse throw. */
  lemma ParseRejectsNoDigits(s: string)
    requires |s| == 0 || (|s| == 1 && IsSign(s[0]))
    ensures ParseInt(s) == Failure(NumberFormat(s))
  {
  }

  /** Well-formed text whose value lies outside the 32-bit range makes the parse throw. */
  lemma ParseRejectsOutOfRange(s: string)
    requires |Unsigned(s)| > 0 && AllDigits(Unsigned(s))
    requires var m := DigitsValue(Unsigned(s)); if s[0] == '-' then m > -MinValue else m > MaxValue
    ensures ParseInt(s) == Failure(NumberFormat(s))
  {
  }

  /** An optional sign and one or more digits whose signed value is in range are accepted, as that value. */
  lemma ParseAcceptsInRange(s: string)
    requires |Unsigned(s)| > 0 && AllDigits(Unsigned(s))
    requires var m := DigitsValue(Unsigned(s)); if s[0] == '-' then m <= -MinValue else m <= MaxValue
    ensures ParseInt(s).Success?
    ensures ParseInt(s).value as int == if s[0] == '-' then -(DigitsValue(Unsigned(s)) as int) else DigitsValue(Unsigned(s))
  {
  }

  /** The renderings of the default Postgres and Elasticsearch ports. */
  lemma RenderDefaultPorts()
    ensures Render(5432) == "5432"
    ensures Render(9200) == "9200"
  {
    assert NatToDigits(54) == "54" && NatToDigits(543) == "543" && NatToDigits(5432) == "5432";
    assert NatToDigits(92) == "92" && NatToDigits(920) == "920" && NatToDigits(9200) == "9200";
  }

  /** The renderings of the example ports 6543 and 9201, which parse back to themselves. */
  lemma RenderExamplePorts()
    ensures Render(6543) == "6543" && ParseInt("6543") == Success(6543)
    ensures Render(9201) == "9201" && ParseInt("9201") == Success(9201)
  {
    assert NatToDigits(65) == "65" && NatToDigits(654) == "654" && NatToDigits(6543) == "6543";
    assert NatToDigits(92) == "92" && NatToDigits(920) == "920" && NatToDigits(9201) == "9201";
    ParseRender(6543);
    ParseRender(9201);
  }

  /** The digits of 2^31 - 1 and of 2^31, built one digit at a time. */
  lemma TopDigits()
    ensures NatToDigits(2147483647) == "2147483647"
    ensures NatToDigits(2147483648) == "2147483648"
  {
    assert NatToDigits(21) == "21";
    assert NatToDigits(214) == "214";
    assert NatToDigits(2147) == "2147";
    assert NatToDigits(21474) == "21474";
    assert NatToDigits(214748) == "214748";
    assert NatToDigits(2147483) == "2147483";
    assert NatToDigits(21474836) == "21474836";
    assert NatToDigits(214748364) == "214748364";
    assert 2147483647 / 10 == 214748364 && 2147483647 % 10 == 7;
    assert 2147483648 / 10 == 214748364 && 2147483648 % 10 == 8;
  }

  /** The top of the 32-bit range renders as its full digit string and is accepted. */
  lemma MaxValueText()
    ensures Render(0x7fff_ffff) == "2147483647" && ParseInt("2147483647") == Success(0x7fff_ffff)
  {
    TopDigits();
    ParseRender(0x7fff_ffff);
  }

  /** The bottom of the 32-bit range renders with a '-' and is accepted, though its magnitude is not an int. */
  lemma MinValueText()
    ensures Render(-0x8000_0000) == "-2147483648" && ParseInt("-2147483648") == Success(-0x8000_0000)
  {
    TopDigits();
    ParseRender(-0x8000_0000);
  }

  /** A '+' with leading zeros is accepted and read as the value of its digits. */
  lemma ParsePlusLeadingZero()
    ensures ParseInt("+05432") == Success(5432)
  {
    assert Render(5432) == "5432" by { RenderDefaultPorts(); }
    ParseRender(5432);
    PlusAndLeadingZero("5432");
    assert "+0" + "5432" == "+05432";
  }

  /** "-0" is accepted as zero. */
  lemma ParseNegativeZero()
    ensures ParseInt("-0") == Success(0)
  {
  }

  /** One past the top of the range, letters, a leading blank, the empty string and a bare sign are rejected. */
  lemma ParseRejectsExamples()
    ensures ParseInt("2147483648") == Failure(NumberFormat("2147483648"))
    ensures ParseInt("notanumber") == Failure(NumberFormat("notanumber"))
    ensures ParseInt(" 5432") == Failure(NumberFormat(" 5432"))
    ensures ParseInt("") == Failure(NumberFormat(""))
    ensures ParseInt("-") == Failure(NumberFormat("-"))
  {
    TopDigits();
    ParseRejectsOutOfRange("2147483648");
    ParseRejectsNonDigit("notanumber", 0);
    ParseRejectsNonDigit(" 5432", 0);
  }
}
