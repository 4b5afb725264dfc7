/**
 * The price prompt's acceptance test, `decimal.TryParse(line, out price) && price > 0`.
 * Parsing is a locale-independent subset of the number style `TryParse` uses:
 * surrounding white space, an optional leading sign, digits and an optional decimal point.
 * Values are exact: a `decimal` is modelled by a `real`.
 */
module Decimal {
  import opened Options
  import opened Text

  predicate IsDigit(c: char) {
    '0' <= c <= '9'
  }

  predicate AllDigits(s: string) {
    forall i :: 0 <= i < |s| ==> IsDigit(s[i])
  }

  /** Characters that may appear in a number once white space is trimmed. */
  predicate IsNumeral(c: char) {
    IsDigit(c) || c == '.' || c == '+' || c == '-'
  }

  function DigitValue(c: char): (d: nat)
    requires IsDigit(c)
    ensures d < 10
  {
    c as int - '0' as int
  }

  function DigitChar(d: nat): (c: char)
    requires d < 10
    ensures IsDigit(c) && DigitValue(c) == d
  {
    ('0' as int + d) as char
  }

  function Pow10(k: nat): (p: nat)
    ensures p >= 1
  {
    if k == 0 then 1 else 10 * Pow10(k - 1)
  }

  /** The value of a run of decimal digits, most significant first. */
  function DigitsValue(s: string): (v: nat)
    requires AllDigits(s)
    ensures v < Pow10(|s|)
  {
    if s == [] then 0 else DigitsValue(s[..|s| - 1]) * 10 + DigitValue(s[|s| - 1])
  }

  /** Length of the run of digits that starts `s`. */
  function LeadingDigits(s: string): (n: nat)
    ensures n <= |s| && AllDigits(s[..n])
    ensures n < |s| ==> !IsDigit(s[n])
  {
    if |s| == 0 || !IsDigit(s[0]) then 0
    else
      var n := 1 + LeadingDigits(s[1..]);
      assert s[..n] == [s[0]] + s[1..][..n - 1];
      n
  }

  /** The value of the numeral `whole.frac` when `frac` has `k` digits. */
  function PointValue(whole: nat, frac: nat, k: nat): (v: real)
    ensures v >= whole as real
  {
    whole as real + (frac as real) / (Pow10(k) as real)
  }

  /** An unsigned number: `digits`, `digits.`, `.digits` or `digits.digits`, with at least one digit. */
  function ParseUnsigned(t: string): (r: Option<real>)
    ensures r.Some? ==> r.value >= 0.0 && t != [] && forall i :: 0 <= i < |t| ==> IsDigit(t[i]) || t[i] == '.'
  {
    var n := LeadingDigits(t);
    if n == |t| then
      if n > 0 then Some(DigitsValue(t) as real) else None
    else if t[n] == '.' && AllDigits(t[n + 1..]) && (n > 0 || n + 1 < |t|) then
      var frac := t[n + 1..];
      assert forall i :: 0 <= i < |t| ==> (i < n ==> t[i] == t[..n][i]) && (i > n ==> t[i] == frac[i - n - 1]);
      Some(PointValue(DigitsValue(t[..n]), DigitsValue(frac), |frac|))
    else
      None
  }

  /** `decimal.TryParse`: `None` where it returns false, the parsed value where it returns true. */
  function ParseDecimal(s: string): (r: Option<real>)
    ensures r.Some? ==> Trim(s) != [] && forall i :: 0 <= i < |Trim(s)| ==> IsNumeral(Trim(s)[i])
    ensures r.Some? && r.value < 0.0 ==> Trim(s)[0] == '-'
  {
    var t := Trim(s);
    if |t| > 0 && (t[0] == '+' || t[0] == '-') then
      match ParseUnsigned(t[1..])
      case None => None
      case Some(v) =>
        assert forall i :: 1 <= i < |t| ==> t[i] == t[1..][i - 1];
        Some(if t[0] == '-' then -v else v)
    else
      ParseUnsigned(t)
  }

  /**
   * The price prompt's test `decimal.TryParse(line, out price) && price > 0`, for any parser
   * `parse` that returns `None` where `TryParse` returns false. The session passes `ParseDecimal`.
   */
  function AcceptPrice(parse: string -> Option<real>, line: string): (r: Option<real>)
    ensures r.Some? <==> parse(line).Some? && parse(line).value > 0.0
    ensures r.Some? ==> r == parse(line) && r.value > 0.0
  {
    match parse(line)
    case Some(v) => if v > 0.0 then Some(v) else None
    case None => None
  }

  /** Decimal digits of `n`, most significant first, without leading zeros. */
  function NatDigits(n: nat): (s: string)
    ensures s != [] && AllDigits(s)
  {
    if n < 10 then [DigitChar(n)] else NatDigits(n / 10) + [DigitChar(n % 10)]
  }

  /** Exactly `k` decimal digits of `r`, zero-padded on the left. */
  function PaddedDigits(r: nat, k: nat): (s: string)
    ensures |s| == k && AllDigits(s)
  {
    if k == 0 then [] else PaddedDigits(r / 10, k - 1) + [DigitChar(r % 10)]
  }

  /** Reading the digits of `n` back gives `n`. */
  lemma {:induction false} NatDigitsValue(n: nat)
    ensures DigitsValue(NatDigits(n)) == n
  {
    var s := NatDigits(n);
    if n >= 10 {
      assert s[..|s| - 1] == NatDigits(n / 10);
      NatDigitsValue(n / 10);
    }
  }

  /** Reading `k` padded digits of `r < 10^k` back gives `r`. */
  lemma {:induction false} PaddedDigitsValue(r: nat, k: nat)
    requires r < Pow10(k)
    ensures DigitsValue(PaddedDigits(r, k)) == r
  {
    if k > 0 {
      var s := PaddedDigits(r, k);
      var q, d := r / 10, r % 10;
      assert s == PaddedDigits(q, k - 1) + [DigitChar(d)];
      assert s[..|s| - 1] == PaddedDigits(q, k - 1);
      assert q < Pow10(k - 1) by {
        assert r == q * 10 + d;
        assert Pow10(k) == 10 * Pow10(k - 1);
      }
      PaddedDigitsValue(q, k - 1);
      assert DigitsValue(s) == DigitsValue(s[..|s| - 1]) * 10 + DigitValue(s[|s| - 1]);
    }
  }

  /** A run of digits has no white space at either end, so trimming leaves it as it is. */
  lemma AllDigitsUnpadded(s: string)
    requires AllDigits(s)
    ensures Unpadded(s) && Trim(s) == s
  {
    if s != [] {
      assert IsDigit(s[0]) && IsDigit(s[|s| - 1]);
    }
    TrimUnpadded(s);
  }

  /** The digits of any natural number parse back to that number. */
  lemma ParseNatDigits(n: nat)
    ensures ParseDecimal(NatDigits(n)) == Some(n as real)
  {
    var s := NatDigits(n);
    AllDigitsUnpadded(s);
    assert IsDigit(s[0]);
    assert LeadingDigits(s) == |s|;
    assert s[..|s|] == s;
    NatDigitsValue(n);
  }

  /** A minus sign in front of the digits of `n` parses to `-n`. */
  lemma ParseNegatedNatDigits(n: nat)
    ensures ParseDecimal("-" + NatDigits(n)) == Some(-(n as real))
  {
    var d := NatDigits(n);
    var s := "-" + d;
    assert Unpadded(s) by { assert IsDigit(d[|d| - 1]) && s[|s| - 1] == d[|d| - 1]; }
    TrimUnpadded(s);
    assert s[1..] == d;
    AllDigitsUnpadded(d);
    assert LeadingDigits(d) == |d|;
    assert d[..|d|] == d;
    NatDigitsValue(n);
  }

  /** A trimmed line that starts with a digit is read as an unsigned number. */
  lemma ParseDecimalUnsigned(s: string)
    requires Unpadded(s) && s != [] && IsDigit(s[0])
    ensures ParseDecimal(s) == ParseUnsigned(s)
  {
    TrimUnpadded(s);
  }

  /** `LeadingDigits` is determined by a run of digits followed by a non-digit. */
  lemma {:induction false} LeadingDigitsIs(s: string, n: nat)
    requires n <= |s| && AllDigits(s[..n]) && (n < |s| ==> !IsDigit(s[n]))
    ensures LeadingDigits(s) == n
  {
    if n > 0 {
      assert IsDigit(s[..n][0]);
      assert s[1..][..n - 1] == s[..n][1..];
      LeadingDigitsIs(s[1..], n - 1);
    }
  }

  /** `w.fr` is read as `w + fr / 10^|fr|`. */
  lemma ParseUnsignedPoint(w: string, fr: string)
    requires w != [] && AllDigits(w) && AllDigits(fr)
    ensures ParseUnsigned(w + "." + fr)
         == Some(PointValue(DigitsValue(w), DigitsValue(fr), |fr|))
  {
    var s := w + "." + fr;
    assert s[..|w|] == w;
    assert s[|w|] == '.';
    LeadingDigitsIs(s, |w|);
    assert s[|w| + 1..] == fr;
  }

  /** Digits, a point and digits, with nothing around them, are read as `whole + frac / 10^|frac|`. */
  lemma ParseDecimalPoint(w: string, fr: string)
    requires w != [] && AllDigits(w) && AllDigits(fr)
    ensures ParseDecimal(w + "." + fr) == Some(PointValue(DigitsValue(w), DigitsValue(fr), |fr|))
  {
    var s := w + "." + fr;
    assert s[0] == w[0];
    assert Unpadded(s) by {
      assert IsDigit(w[0]);
      if fr != [] { assert s[|s| - 1] == fr[|fr| - 1]; } else { assert s[|s| - 1] == '.'; }
    }
    ParseDecimalUnsigned(s);
    ParseUnsignedPoint(w, fr);
  }

  /** A fixed-point numeral `q.f` with `k` fraction digits parses to `q + f / 10^k`. */
  lemma ParseFixedPoint(q: nat, f: nat, k: nat)
    requires f < Pow10(k)
    ensures ParseDecimal(NatDigits(q) + "." + PaddedDigits(f, k))
         == Some(PointValue(q, f, k))
  {
    ParseDecimalPoint(NatDigits(q), PaddedDigits(f, k));
    NatDigitsValue(q);
    PaddedDigitsValue(f, k);
  }

  /** Every natural number written in digits is accepted as a price exactly when it is not zero. */
  lemma AcceptNatDigits(n: nat)
    ensures AcceptPrice(ParseDecimal, NatDigits(n)) == if n > 0 then Some(n as real) else None
  {
    ParseNatDigits(n);
  }

  /** A negated whole number, `-0` included, is never accepted as a price. */
  lemma RejectNegatedNatDigits(n: nat)
    ensures AcceptPrice(ParseDecimal, "-" + NatDigits(n)) == None
  {
    ParseNegatedNatDigits(n);
  }

  /** No line whose number starts with `-` is accepted as a price, whatever follows the sign. */
  lemma RejectLeadingMinus(line: string)
    requires Trim(line) != [] && Trim(line)[0] == '-'
    ensures ParseDecimal(line).Some? ==> ParseDecimal(line).value <= 0.0
    ensures AcceptPrice(ParseDecimal, line) == None
  {
    var t := Trim(line);
    match ParseUnsigned(t[1..])
    case None =>
    case Some(v) =>
      assert v >= 0.0;
  }

  /** `"-1.5"` reads as a negative number and is refused. */
  lemma RejectNegativeFraction()
    ensures ParseDecimal("-1.5") == Some(-1.5)
    ensures AcceptPrice(ParseDecimal, "-1.5") == None
  {
    var w, fr := "1", "5";
    assert w + "." + fr == "1.5";
    ParseUnsignedPoint(w, fr);
    assert DigitsValue(w) == 1 && DigitsValue(fr) == 5;
    assert PointValue(1, 5, 1) == 1.5 by { assert Pow10(1) == 10; }
    assert Unpadded("-1.5");
    TrimUnpadded("-1.5");
    assert "-1.5"[1..] == "1.5";
    RejectLeadingMinus("-1.5");
  }

  /** Text containing a character that cannot occur in a number is never accepted as a price. */
  lemma RejectNonNumeral(line: string, i: nat)
    requires i < |Trim(line)| && !IsNumeral(Trim(line)[i])
    ensures AcceptPrice(ParseDecimal, line) == None
  {
  }

  /** `"100"` is accepted as the price 100. */
  lemma AcceptHundred()
    ensures AcceptPrice(ParseDecimal, "100") == Some(100.0)
  {
    AcceptNatDigits(100);
    assert NatDigits(100) == "100";
  }

  /** `"199.99"` is accepted as the price 199.99. */
  lemma AcceptFraction()
    ensures AcceptPrice(ParseDecimal, "199.99") == Some(199.99)
  {
    var w, fr := "199", "99";
    assert w + "." + fr == "199.99";
    ParseDecimalPoint(w, fr);
    assert DigitsValue(w) == 199 by { assert w[..2] == "19" && "19"[..1] == "1"; }
    assert DigitsValue(fr) == 99 by { assert fr[..1] == "9"; }
    assert PointValue(199, 99, 2) == 199.99 by { assert Pow10(2) == 100; }
  }

  /** `"0"` and `"-10"` parse, but are not positive, so they are refused. */
  lemma RejectZeroAndNegative()
    ensures AcceptPrice(ParseDecimal, "0") == None
    ensures AcceptPrice(ParseDecimal, "-10") == None
  {
    AcceptNatDigits(0);
    assert NatDigits(0) == "0";
    RejectNegatedNatDigits(10);
    assert NatDigits(10) == "10";
    assert "-" + NatDigits(10) == "-10";
  }

  /** `"abc"` is not a number, so it is refused. */
  lemma RejectLetters()
    ensures AcceptPrice(ParseDecimal, "abc") == None
  {
    assert Unpadded("abc");
    TrimUnpadded("abc");
    RejectNonNumeral("abc", 0);
  }
}
