/**
 * `formatMoney` on the dashboard: an amount in cents shown with two decimals,
 * a decimal comma and the euro sign, and what the page shows for null,
 * undefined and NaN.
 */
module Money {
  import opened Wrappers
  import opened Text

  /** A value handed to `formatMoney`: null, undefined, NaN or a number of cents. */
  datatype Amount = Null | Undefined | NotANumber | Cents(cents: int)

  const Euro: string := " \U{20AC}"

  /** Two decimal digits. */
  function TwoDigits(m: nat): (r: string)
    requires m < 100
    ensures |r| == 2 && AllDigits(r)
  {
    [DigitChar(m / 10), DigitChar(m % 10)]
  }

  /** `n.toFixed(2)` for a number of cents. */
  function ToFixed2(c: int): string {
    var a := if c < 0 then -c else c;
    (if c < 0 then "-" else "") + NatToDec(a / 100) + "." + TwoDigits(a % 100)
  }

  /** `s.replace('.', ',')`, which replaces the first '.' only. */
  function ReplaceFirstDot(s: string): (r: string)
    ensures |r| == |s|
  {
    if |s| == 0 then ""
    else if s[0] == '.' then "," + s[1..]
    else [s[0]] + ReplaceFirstDot(s[1..])
  }

  /** `formatMoney(value)`: anything that is not a number shows as zero. */
  function FormatMoney(v: Amount): string {
    if !v.Cents? then "0,00" + Euro
    else ReplaceFirstDot(ToFixed2(v.cents)) + Euro
  }

  /** Reads a displayed amount back into cents; the inverse of `FormatMoney`. */
  function ParseMoney(s: string): Option<int> {
    if |s| < |Euro| || s[|s| - |Euro|..] != Euro then None
    else ParseSigned(s[..|s| - |Euro|])
  }

  /** An optional minus sign in front of a magnitude. */
  function ParseSigned(body: string): Option<int> {
    if |body| > 0 && body[0] == '-' then
      match ParseMagnitude(body[1..])
      case None => None
      case Some(v) => Some(-v)
    else ParseMagnitude(body)
  }

  /** Digits, a comma and exactly two more digits. */
  function ParseMagnitude(mag: string): Option<int> {
    if |mag| < 4 || mag[|mag| - 3] != ',' then None
    else
      var whole, fraction := mag[..|mag| - 3], mag[|mag| - 2..];
      if !AllDigits(whole) || !AllDigits(fraction) then None
      else Some(ParseDec(whole) * 100 + ParseDec(fraction))
  }

  lemma {:induction false} ReplaceFirstDotSkips(x: string, y: string)
    requires '.' !in x
    ensures ReplaceFirstDot(x + "." + y) == x + "," + y
  {
    if |x| > 0 {
      assert (x + "." + y)[1..] == x[1..] + "." + y;
      assert '.' !in x[1..] by {
        assert x == [x[0]] + x[1..];
      }
      ReplaceFirstDotSkips(x[1..], y);
      assert [x[0]] + (x[1..] + "," + y) == x + "," + y;
    }
  }

  lemma TwoDigitsValue(m: nat)
    requires m < 100
    ensures ParseDec(TwoDigits(m)) == m
  {
    var t := TwoDigits(m);
    assert t[..1] == [t[0]];
    assert ParseDec(t[..1]) == m / 10;
  }

  /** The displayed text of a number of cents. */
  lemma FormatMoneyShape(c: int)
    ensures var a := if c < 0 then -c else c;
      FormatMoney(Cents(c)) == (if c < 0 then "-" else "") + NatToDec(a / 100) + "," + TwoDigits(a % 100) + Euro
  {
    var a := if c < 0 then -c else c;
    var sign := if c < 0 then "-" else "";
    var whole := NatToDec(a / 100);
    NoDotInNumber(sign, whole);
    ReplaceFirstDotSkips(sign + whole, TwoDigits(a % 100));
  }

  lemma NoDotInNumber(sign: string, whole: string)
    requires sign == "" || sign == "-"
    requires AllDigits(whole)
    ensures '.' !in sign + whole
  {
    forall k | 0 <= k < |sign + whole| ensures (sign + whole)[k] != '.' {
      if k >= |sign| {
        assert (sign + whole)[k] == whole[k - |sign|];
      }
    }
  }

  /** Every number of cents reads back from its display. */
  lemma ParseFormatMoney(c: int)
    ensures ParseMoney(FormatMoney(Cents(c))) == Some(c)
  {
    var a := if c < 0 then -c else c;
    FormatMoneyShape(c);
    ParseDisplayed(c < 0, NatToDec(a / 100), TwoDigits(a % 100));
    ParseNatToDec(a / 100);
    TwoDigitsValue(a % 100);
  }

  /** null, undefined and NaN show exactly as zero does, and read back as zero. */
  lemma FormatMoneyNonNumbers(v: Amount)
    requires !v.Cents?
    ensures FormatMoney(v) == FormatMoney(Cents(0))
    ensures ParseMoney(FormatMoney(v)) == Some(0)
  {
    FormatMoneyShape(0);
    ParseFormatMoney(0);
  }

  /** A sign, a whole part, a comma, two decimals and the euro sign read back as their value. */
  lemma ParseDisplayed(negative: bool, whole: string, fraction: string)
    requires |whole| >= 1 && AllDigits(whole) && |fraction| == 2 && AllDigits(fraction)
    ensures var v := ParseDec(whole) * 100 + ParseDec(fraction);
      ParseMoney((if negative then "-" else "") + whole + "," + fraction + Euro) == Some(if negative then -v else v)
  {
    var sign := if negative then "-" else "";
    var mag := whole + "," + fraction;
    var body := sign + mag;
    assert sign + whole + "," + fraction + Euro == body + Euro;
    StripEuro(body);
    ParseSignedOf(negative, mag);
    ParseMagnitudeOf(whole, fraction);
  }

  lemma StripEuro(body: string)
    ensures ParseMoney(body + Euro) == ParseSigned(body)
  {
    var s := body + Euro;
    assert s[|s| - |Euro|..] == Euro;
    assert s[..|s| - |Euro|] == body;
  }

  lemma ParseSignedOf(negative: bool, mag: string)
    requires |mag| > 0 && mag[0] != '-'
    ensures var r := ParseMagnitude(mag);
      ParseSigned((if negative then "-" else "") + mag) == if negative && r.Some? then Some(-r.value) else r
  {
    var body := (if negative then "-" else "") + mag;
    if negative {
      assert body[0] == '-' && body[1..] == mag;
    } else {
      assert body == mag;
    }
  }

  lemma ParseMagnitudeOf(whole: string, fraction: string)
    requires |whole| >= 1 && AllDigits(whole) && |fraction| == 2 && AllDigits(fraction)
    ensures ParseMagnitude(whole + "," + fraction) == Some(ParseDec(whole) * 100 + ParseDec(fraction))
  {
    var mag := whole + "," + fraction;
    assert |mag| == |whole| + 3;
    assert mag[|mag| - 3] == ',';
    assert mag[..|mag| - 3] == whole;
    assert mag[|mag| - 2..] == fraction;
    ParseMagnitudeParts(mag, whole, fraction);
  }

  /** A magnitude whose comma sits before the last two characters reads as its two digit runs. */
  lemma ParseMagnitudeParts(mag: string, whole: string, fraction: string)
    requires |mag| >= 4 && mag[|mag| - 3] == ','
    requires mag[..|mag| - 3] == whole && mag[|mag| - 2..] == fraction
    requires AllDigits(whole) && AllDigits(fraction)
    ensures ParseMagnitude(mag) == Some(ParseDec(whole) * 100 + ParseDec(fraction))
  {
  }

  lemma FormatMoneyExample()
    ensures FormatMoney(Cents(123450)) == "1234,50 \U{20AC}"
  {
    calc {
      FormatMoney(Cents(123450));
    == { FormatMoneyShape(123450); }
      "" + NatToDec(1234) + "," + TwoDigits(50) + Euro;
    == { assert NatToDec(12) == "12"; assert NatToDec(123) == "123"; assert TwoDigits(50) == "50"; }
      "1234" + "," + "50" + Euro;
    }
  }

  lemma FormatMoneyNegativeExample()
    ensures FormatMoney(Cents(-5)) == "-0,05 \U{20AC}"
  {
    FormatMoneyShape(-5);
  }
}
