/**
 * The two number parsers `SalesRecord.fromCsvFields` relies on:
 * `Integer.parseInt` (radix 10) and `Double.parseDouble`, the latter on
 * plain decimal literals only. A `None` result stands for the
 * NumberFormatException the parser throws.
 */
module NumberParsing {
  import opened Numerals
  import opened Wrappers
  import opened StringTrim

  const INT_MIN: int := -0x8000_0000
  const INT_MAX: int := 0x7fff_ffff

  predicate IsInt32(n: int) {
    INT_MIN <= n <= INT_MAX
  }

  /** `Integer.parseInt(text)`: an optional sign, at least one ASCII digit, a value that fits in 32 bits. */
  function ParseInt(text: string): (r: Option<int>)
    ensures r.Some? ==> IsInt32(r.value)
    ensures r.Some? ==> |text| >= 1 && (r.value < 0 ==> text[0] == '-')
  {
    if |text| == 0 then None
    else
      var digits := if text[0] == '-' || text[0] == '+' then text[1..] else text;
      if |digits| == 0 || !AllDigits(digits) then None
      else
        var magnitude: int := DigitsValue(digits);
        var value := if text[0] == '-' then -magnitude else magnitude;
        if IsInt32(value) then Some(value) else None
  }

  /** `Integer.toString(n)`. */
  function IntToString(n: int): string {
    if n < 0 then "-" + NatToString(-n) else NatToString(n)
  }

  /** Every 32-bit integer survives printing and parsing back. */
  lemma ParseIntToString(n: int)
    requires IsInt32(n)
    ensures ParseInt(IntToString(n)) == Some(n)
  {
    ParseIntOfPrinted(n);
  }

  /** Printed integers outside 32 bits do not parse back: the parser throws instead of wrapping. */
  lemma ParseIntOutOfRange(n: int)
    requires !IsInt32(n)
    ensures ParseInt(IntToString(n)) == None
  {
    ParseIntOfPrinted(n);
  }

  /** Parsing a printed integer reads back its value, then applies the 32-bit range check. */
  lemma ParseIntOfPrinted(n: int)
    ensures ParseInt(IntToString(n)) == if IsInt32(n) then Some(n) else None
  {
    var m: nat := if n < 0 then -n else n;
    var d := NatToString(m);
    assert DigitsValue(d) == m by {
      NatToStringValue(m);
    }
    assert d[0] != '-' && d[0] != '+' by {
      assert IsDigit(d[0]);
    }
    if n < 0 {
      var s := "-" + d;
      assert s[0] == '-' && s[1..] == d;
    }
  }

  /** Text without a digit is rejected. */
  lemma ParseIntRejects()
    ensures ParseInt("") == None && ParseInt("-") == None && ParseInt("+") == None
    ensures ParseInt("not-a-number") == None && ParseInt("abc") == None
  {
    assert !IsDigit('n') && !IsDigit('a');
  }

  /** The position of the first '.', or |s| when there is none. */
  function IndexOfDot(s: string): (k: nat)
    ensures k <= |s| && (k < |s| ==> s[k] == '.')
    ensures forall j :: 0 <= j < k ==> s[j] != '.'
  {
    if |s| == 0 then 0 else if s[0] == '.' then 0 else 1 + IndexOfDot(s[1..])
  }

  /** The value of the digits after the point, read from the left: "5" is 0.5, "05" is 0.05, "" is 0. */
  function FractionValue(fraction: string): (v: real)
    requires AllDigits(fraction)
    ensures 0.0 <= v < 1.0
  {
    if |fraction| == 0 then 0.0
    else (DigitValue(fraction[0]) as real + FractionValue(fraction[1..])) / 10.0
  }

  /** The digits after the point, read as one number, over ten to their count. */
  lemma {:induction false} FractionValueClosed(f: string)
    requires AllDigits(f)
    ensures FractionValue(f) == DigitsValue(f) as real / Pow10(|f|) as real
  {
    if |f| == 0 {
      assert DigitsValue(f) == 0 && Pow10(|f|) == 1;
    } else {
      var g := f[1..];
      FractionValueClosed(g);
      LeadingDigitValue(f);
      ShiftFraction(FractionValue(f), FractionValue(g), DigitValue(f[0]), DigitsValue(g), Pow10(|g|),
                    DigitsValue(f), Pow10(|f|));
    }
  }

  /** The first digit of a digit string counts ten to the number of the remaining digits. */
  lemma LeadingDigitValue(f: string)
    requires |f| >= 1 && AllDigits(f)
    ensures DigitsValue(f) == DigitValue(f[0]) * Pow10(|f| - 1) + DigitsValue(f[1..])
    ensures Pow10(|f|) == 10 * Pow10(|f| - 1)
  {
    var c, g := f[0], f[1..];
    assert DigitsValue([c]) == DigitValue(c) by {
      assert [c][..0] == [];
    }
    assert [c] + g == f;
    DigitsValueAppend([c], g);
  }

  /** Putting one more digit d in front of a fraction z / p gives (d * p + z) / (10 * p). */
  lemma ShiftFraction(v: real, w: real, d: nat, z: nat, p: nat, n: nat, q: nat)
    requires p >= 1 && v == (d as real + w) / 10.0 && w == z as real / p as real
    requires n == d * p + z && q == 10 * p
    ensures v == n as real / q as real
  {
    CastMul(d, p);
    assert n as real == d as real * p as real + z as real;
    assert q as real == 10.0 * p as real;
  }

  /** An unsigned literal: digits "I" without a point, or "I.", ".F" or "I.F" with at least one digit. */
  function UnsignedDecimal(s: string): (r: Option<real>)
    ensures r.Some? ==> r.value >= 0.0
  {
    var k := IndexOfDot(s);
    if k == |s| then
      if |s| >= 1 && AllDigits(s) then Some(DigitsValue(s) as real) else None
    else PointedValue(s[..k], s[k + 1..])
  }

  /** The literal "I.F" around its first point: at least one digit, and digits only on both sides. */
  function PointedValue(whole: string, fraction: string): (r: Option<real>)
    ensures r.Some? ==> r.value >= 0.0
  {
    if |whole| + |fraction| >= 1 && AllDigits(whole) && AllDigits(fraction)
    then Some(DigitsValue(whole) as real + FractionValue(fraction))
    else None
  }

  /** A parse result with its value negated; a failure stays a failure. */
  function Negated(r: Option<real>): Option<real> {
    match r
    case None => None
    case Some(v) => Some(-v)
  }

  /** The text after one leading sign character, if there is one. */
  function WithoutSign(s: string): string {
    if |s| >= 1 && (s[0] == '-' || s[0] == '+') then s[1..] else s
  }

  /**
   * The longest prefix made of digits and points: the run `parseDouble`
   * scans before it looks for an exponent or a type suffix.
   */
  function DigitsAndPoints(s: string): (run: string)
    ensures |run| <= |s| && run == s[..|run|]
    ensures forall i :: 0 <= i < |run| ==> IsDigit(run[i]) || run[i] == '.'
    ensures |run| == |s| || !(IsDigit(s[|run|]) || s[|run|] == '.')
  {
    if |s| >= 1 && (IsDigit(s[0]) || s[0] == '.') then [s[0]] + DigitsAndPoints(s[1..]) else ""
  }

  /**
   * Trimmed text on which `parseDouble` throws "multiple points": after an
   * optional sign, its run of digits and points holds a second point.
   */
  predicate HasMultiplePoints(s: string) {
    var run := DigitsAndPoints(WithoutSign(s));
    exists i, j :: 0 <= i < j < |run| && run[i] == '.' && run[j] == '.'
  }

  /** Two points in the run of digits and points make the unsigned literal after the sign invalid. */
  lemma SecondPointRejected(s: string)
    ensures HasMultiplePoints(s) ==> UnsignedDecimal(WithoutSign(s)) == None
  {
    if HasMultiplePoints(s) {
      var u := WithoutSign(s);
      var run := DigitsAndPoints(u);
      var i, j :| 0 <= i < j < |run| && run[i] == '.' && run[j] == '.';
      assert u[i] == run[i] && u[j] == run[j];
      TwoPointsRejected(u, i, j);
    }
  }

  /** A literal with two points is rejected: the text after its first point is not all digits. */
  lemma TwoPointsRejected(u: string, i: nat, j: nat)
    requires i < j < |u| && u[i] == '.' && u[j] == '.'
    ensures UnsignedDecimal(u) == None
  {
    var k := IndexOfDot(u);
    assert k <= i;
    assert u[k + 1..][j - k - 1] == '.';
  }

  /** The literal `Double.parseDouble` reads once its argument is trimmed: an optional sign, then an unsigned decimal. */
  function DecimalLiteral(s: string): (r: Option<real>)
    ensures r.Some? ==> |s| >= 1 && (r.value < 0.0 ==> s[0] == '-')
    ensures HasMultiplePoints(s) ==> r.None?
  {
    if |s| == 0 then None
    else
      SecondPointRejected(s);
      if s[0] == '-' then Negated(UnsignedDecimal(s[1..]))
      else if s[0] == '+' then UnsignedDecimal(s[1..])
      else UnsignedDecimal(s)
  }

  /** `Double.parseDouble(text)`: trim the text, then read a plain decimal literal. */
  function ParseDecimal(text: string): (r: Option<real>)
    ensures r.Some? ==> |Trim(text)| >= 1 && (r.value < 0.0 ==> Trim(text)[0] == '-')
    ensures HasMultiplePoints(Trim(text)) ==> r.None?
  {
    DecimalLiteral(Trim(text))
  }

  /** Characters up to ' ' around the literal are ignored. */
  lemma ParseDecimalPadding(before: string, s: string, after: string)
    requires forall i :: 0 <= i < |before| ==> IsTrimmed(before[i])
    requires forall i :: 0 <= i < |after| ==> IsTrimmed(after[i])
    ensures ParseDecimal(before + s + after) == ParseDecimal(s)
  {
    TrimPadding(before, s, after);
  }

  /** An integer literal reads as the same number when parsed as a decimal. */
  lemma ParseDecimalOfNat(n: nat)
    ensures ParseDecimal(NatToString(n)) == Some(n as real)
  {
    var s := NatToString(n);
    assert DigitsValue(s) == n by {
      NatToStringValue(n);
    }
    assert ParseDecimal(s) == UnsignedDecimal(s) by {
      assert IsDigit(s[0]) && IsDigit(s[|s| - 1]);
      ParseDecimalUnsigned(s);
    }
    UnsignedWithoutDot(s);
  }

  /** Digits without a point read as a whole number. */
  lemma UnsignedWithoutDot(s: string)
    requires |s| >= 1 && AllDigits(s)
    ensures UnsignedDecimal(s) == Some(DigitsValue(s) as real)
  {
    assert IndexOfDot(s) == |s| by {
      assert forall j :: 0 <= j < |s| ==> s[j] != '.';
    }
  }

  /** On trimmed text: a leading '-' negates the unsigned value. */
  lemma DecimalLiteralNegate(u: string)
    requires |u| >= 1 && u[0] != '-' && u[0] != '+'
    ensures DecimalLiteral("-" + u) == Negated(DecimalLiteral(u))
  {
    var w := "-" + u;
    assert w[0] == '-' && w[1..] == u;
    assert DecimalLiteral(u) == UnsignedDecimal(u);
  }

  /** A minus sign negates exactly: parsing "-" + s gives minus the value of s, and fails when s fails. */
  lemma ParseDecimalNegate(s: string)
    requires |s| >= 1 && s[0] != '-' && s[0] != '+' && !IsTrimmed(s[0])
    ensures ParseDecimal("-" + s) == Negated(ParseDecimal(s))
  {
    var u := TrimEnd(s);
    assert Trim("-" + s) == "-" + u by {
      assert "-" + s == ['-'] + s;
      TrimCons('-', s);
    }
    assert Trim(s) == u;
    assert |u| >= 1 && u[0] == s[0];
    DecimalLiteralNegate(u);
    assert ParseDecimal("-" + s) == DecimalLiteral("-" + u);
    assert ParseDecimal(s) == DecimalLiteral(u);
  }

  /** A literal's value is its digits, read as one number, over ten to the count of digits after the point. */
  lemma UnsignedDecimalValue(w: string, f: string)
    requires AllDigits(w) && AllDigits(f) && |w| + |f| >= 1
    ensures AllDigits(w + f)
    ensures UnsignedDecimal(w + "." + f) == Some(DigitsValue(w + f) as real / Pow10(|f|) as real)
  {
    var s := w + "." + f;
    assert IndexOfDot(s) == |w| && s[..|w|] == w && s[|w| + 1..] == f by {
      assert s[|w|] == '.';
      assert forall j :: 0 <= j < |w| ==> s[j] == w[j] && IsDigit(w[j]);
    }
    AppendedFraction(w, f);
  }

  /** The digits on both sides of the point, read as one number and scaled back by the fraction's length. */
  lemma AppendedFraction(w: string, f: string)
    requires AllDigits(w) && AllDigits(f)
    ensures AllDigits(w + f)
    ensures DigitsValue(w + f) as real / Pow10(|f|) as real == DigitsValue(w) as real + FractionValue(f)
  {
    DigitsValueAppend(w, f);
    CastSum(DigitsValue(w + f), DigitsValue(w), Pow10(|f|), DigitsValue(f));
    FractionValueClosed(f);
  }

  /** Reading n = x * y + z as a real fraction over y. */
  lemma CastSum(n: nat, x: nat, y: nat, z: nat)
    requires y >= 1 && n == x * y + z
    ensures n as real / y as real == x as real + z as real / y as real
  {
    CastMul(x, y);
    FractionSum(n as real, x as real, z as real, y as real);
  }

  lemma FractionSum(x: real, a: real, b: real, p: real)
    requires p > 0.0 && x == a * p + b
    ensures x / p == a + b / p
  {
  }

  lemma CastMul(x: nat, y: nat)
    ensures (x * y) as real == x as real * y as real
  {
  }

  /** Appending a zero to the digits after the point does not change their value. */
  lemma {:induction false} FractionTrailingZero(f: string)
    requires AllDigits(f)
    ensures AllDigits(f + "0") && FractionValue(f + "0") == FractionValue(f)
  {
    var f0 := f + "0";
    if |f| == 0 {
      assert f0 == "0" && f0[1..] == [];
    } else {
      assert f0[0] == f[0] && f0[1..] == f[1..] + "0";
      FractionTrailingZero(f[1..]);
    }
  }

  /** After the point, a trailing zero changes nothing. */
  lemma UnsignedTrailingZero(b: string)
    requires '.' in b && UnsignedDecimal(b).Some?
    ensures UnsignedDecimal(b + "0") == UnsignedDecimal(b)
  {
    var k := IndexOfDot(b);
    var whole, fraction := b[..k], b[k + 1..];
    assert k < |b| && AllDigits(whole) && AllDigits(fraction) && |whole| + |fraction| >= 1;
    var v := DigitsValue(whole) as real + FractionValue(fraction);
    assert UnsignedDecimal(b) == Some(v) by {
      UnsignedWithDot(b, k, whole, fraction);
    }
    assert UnsignedDecimal(b + "0") == Some(v) by {
      ZeroAppendedValue(b, k, whole, fraction);
    }
  }

  /** The literal with a '0' appended has the value read from the original digits. */
  lemma ZeroAppendedValue(b: string, k: nat, whole: string, fraction: string)
    requires k == IndexOfDot(b) < |b| && b[..k] == whole && b[k + 1..] == fraction
    requires AllDigits(whole) && AllDigits(fraction) && |whole| + |fraction| >= 1
    ensures UnsignedDecimal(b + "0") == Some(DigitsValue(whole) as real + FractionValue(fraction))
  {
    DotKeptByAppend(b, "0", k);
    assert AllDigits(fraction + "0") && FractionValue(fraction + "0") == FractionValue(fraction) by {
      FractionTrailingZero(fraction);
    }
    UnsignedWithDot(b + "0", k, whole, fraction + "0");
  }

  /** Text appended after the first point leaves that point where it was and lengthens the text after it. */
  lemma DotKeptByAppend(b: string, t: string, k: nat)
    requires k == IndexOfDot(b) < |b|
    ensures IndexOfDot(b + t) == k && (b + t)[..k] == b[..k] && (b + t)[k + 1..] == b[k + 1..] + t
  {
    IndexOfDotAppend(b, t);
  }

  /** Text appended after a point does not move the first point. */
  lemma {:induction false} IndexOfDotAppend(b: string, t: string)
    requires IndexOfDot(b) < |b|
    ensures IndexOfDot(b + t) == IndexOfDot(b)
  {
    if b[0] != '.' {
      assert (b + t)[0] == b[0] && (b + t)[1..] == b[1..] + t;
      IndexOfDotAppend(b[1..], t);
    }
  }

  /** A character `trim` keeps stays in the trimmed text. */
  lemma TrimKeeps(s: string, i: nat) returns (j: nat)
    requires i < |s| && !IsTrimmed(s[i])
    ensures j < |Trim(s)| && Trim(s)[j] == s[i]
  {
    var front := TrimStart(s);
    var start := |s| - |front|;
    assert i >= start;
    assert front[i - start] == s[i];
    j := i - start;
  }

  /** On trimmed text: a zero appended after the point leaves the value unchanged. */
  lemma DecimalLiteralTrailingZero(u: string)
    requires '.' in u && DecimalLiteral(u).Some?
    ensures DecimalLiteral(u + "0") == DecimalLiteral(u)
  {
    var u0 := u + "0";
    assert |u| >= 1 && u0[0] == u[0];
    if u[0] == '-' || u[0] == '+' {
      var body := u[1..];
      assert u0[1..] == body + "0";
      assert '.' in body by {
        var j :| 0 <= j < |u| && u[j] == '.';
        assert j >= 1 && body[j - 1] == '.';
      }
      UnsignedTrailingZero(body);
    } else {
      UnsignedTrailingZero(u);
    }
  }

  /** "25.5" and "25.50" are the same number: a zero appended after the point leaves the value unchanged. */
  lemma ParseDecimalTrailingZero(t: string)
    requires |t| >= 1 && '.' in t && !IsTrimmed(t[|t| - 1])
    ensures ParseDecimal(t).Some? ==> ParseDecimal(t + "0") == ParseDecimal(t)
  {
    if ParseDecimal(t).Some? {
      assert Trim(t + "0") == Trim(t) + "0" by {
        TrimSnoc(t, '0');
        assert t + "0" == t + ['0'];
      }
      var i :| 0 <= i < |t| && t[i] == '.';
      var j := TrimKeeps(t, i);
      DecimalLiteralTrailingZero(Trim(t));
    }
  }

  /** Text that starts with neither a sign nor a trimmed character and does not end with one is read unsigned. */
  lemma ParseDecimalUnsigned(s: string)
    requires |s| >= 1 && !IsTrimmed(s[0]) && !IsTrimmed(s[|s| - 1]) && s[0] != '-' && s[0] != '+'
    ensures ParseDecimal(s) == UnsignedDecimal(s)
  {
    TrimUntouched(s);
  }

  /** The value of a literal with its point at k: the whole part plus the fraction. */
  lemma UnsignedWithDot(s: string, k: nat, w: string, f: string)
    requires k == IndexOfDot(s) < |s| && s[..k] == w && s[k + 1..] == f
    requires AllDigits(w) && AllDigits(f) && |w| + |f| >= 1
    ensures UnsignedDecimal(s) == Some(DigitsValue(w) as real + FractionValue(f))
  {
    UnsignedAtDot(s, k, w, f);
    PointedDigits(w, f);
  }

  /** Digits on both sides of the point, at least one in all, are worth the whole part plus the fraction. */
  lemma PointedDigits(w: string, f: string)
    requires AllDigits(w) && AllDigits(f) && |w| + |f| >= 1
    ensures PointedValue(w, f) == Some(DigitsValue(w) as real + FractionValue(f))
  {
  }

  /** A literal with a point is read as the text before it and the text after it. */
  lemma UnsignedAtDot(s: string, k: nat, w: string, f: string)
    requires k == IndexOfDot(s) < |s| && s[..k] == w && s[k + 1..] == f
    ensures UnsignedDecimal(s) == PointedValue(w, f)
  {
  }

  /** The quantity texts the record tests use. */
  lemma ParseIntExamples()
    ensures ParseInt("25") == Some(25) && ParseInt("-10") == Some(-10)
  {
    assert ParseInt("25") == Some(25) by {
      assert IntToString(25) == "25";
      ParseIntToString(25);
    }
    assert ParseInt("-10") == Some(-10) by {
      assert IntToString(-10) == "-10";
      ParseIntToString(-10);
    }
  }

  /** The price texts the record tests use. */
  lemma ParseDecimalExamples()
    ensures ParseDecimal("29.99") == Some(29.99)
  {
    var v := DecimalExample("29.99", "29", "99");
    assert v == 29.0 + 99.0 / 100.0;
  }

  /** The other price text the record tests use. */
  lemma ParseDecimalExample2550()
    ensures ParseDecimal("25.50") == Some(25.5)
  {
    var v := DecimalExample("25.50", "25", "50");
    assert v == 25.0 + 50.0 / 100.0;
  }

  /** A literal of two digits, a point and two digits, with its value. */
  lemma DecimalExample(text: string, whole: string, fraction: string) returns (v: real)
    requires text == whole + "." + fraction
    requires |whole| == 2 && |fraction| == 2 && AllDigits(whole) && AllDigits(fraction)
    ensures v == (10 * DigitValue(whole[0]) + DigitValue(whole[1])) as real +
                 (10 * DigitValue(fraction[0]) + DigitValue(fraction[1])) as real / 100.0
    ensures ParseDecimal(text) == Some(v)
  {
    assert UnsignedDecimal(text) == Some(DigitsValue(whole) as real + FractionValue(fraction)) by {
      assert IndexOfDot(text) == 2 by {
        assert text[0] == whole[0] && text[1] == whole[1] && text[2] == '.';
      }
      assert text[..2] == whole && text[3..] == fraction;
      UnsignedWithDot(text, 2, whole, fraction);
    }
    assert DigitsValue(whole) == 10 * DigitValue(whole[0]) + DigitValue(whole[1]) by {
      TwoDigitsValue(whole);
    }
    assert FractionValue(fraction) == (10 * DigitValue(fraction[0]) + DigitValue(fraction[1])) as real / 100.0 by {
      var rest := fraction[1..];
      assert |rest| == 1 && rest[0] == fraction[1] && |rest[1..]| == 0;
      assert FractionValue(rest) == DigitValue(fraction[1]) as real / 10.0;
    }
    assert ParseDecimal(text) == UnsignedDecimal(text) by {
      assert text[0] == whole[0] && text[4] == fraction[1];
      assert IsDigit(text[0]) && IsDigit(text[4]);
      ParseDecimalUnsigned(text);
    }
    v := UnsignedDecimal(text).value;
  }

  /** The value of a two-digit text. */
  lemma TwoDigitsValue(s: string)
    requires |s| == 2 && AllDigits(s)
    ensures DigitsValue(s) == 10 * DigitValue(s[0]) + DigitValue(s[1])
  {
    assert s[..1][..0] == [];
  }

  /** Text that is not a decimal literal is rejected. */
  lemma ParseDecimalRejects()
    ensures ParseDecimal("invalid-price") == None && ParseDecimal(".") == None
  {
    ParseDecimalBadStart("invalid-price");
    ParseDecimalLoneDot(".");
  }

  /** Text that starts with neither a sign, a digit nor a point has an empty run, so no multiple points. */
  lemma NoPointRun(s: string)
    requires |s| >= 1 && s[0] != '-' && s[0] != '+' && !IsDigit(s[0]) && s[0] != '.'
    ensures !HasMultiplePoints(s)
  {
    assert WithoutSign(s) == s;
    assert DigitsAndPoints(s) == "";
  }

  /** Texts with a second point, which `parseDouble` reports as "multiple points". */
  lemma MultiplePointsExamples()
    ensures HasMultiplePoints("1.2.3") && HasMultiplePoints("..")
  {
    assert HasMultiplePoints("1.2.3") by {
      PointsAt("1.2.3", 1, 3);
    }
    PointsAt("..", 0, 1);
  }

  /** Text made only of digits and points, with points at i and j, has multiple points. */
  lemma PointsAt(s: string, i: nat, j: nat)
    requires forall k :: 0 <= k < |s| ==> IsDigit(s[k]) || s[k] == '.'
    requires i < j < |s| && s[i] == '.' && s[j] == '.'
    ensures HasMultiplePoints(s)
  {
    assert WithoutSign(s) == s by {
      assert IsDigit(s[0]) || s[0] == '.';
    }
    var run := DigitsAndPoints(s);
    assert |run| == |s|;
    assert run[i] == '.' && run[j] == '.';
  }

  /** A sign in front of unsigned text does not change whether it has multiple points. */
  lemma SignedMultiplePoints(sign: char, u: string)
    requires (sign == '-' || sign == '+') && |u| >= 1 && u[0] != '-' && u[0] != '+'
    ensures HasMultiplePoints([sign] + u) <==> HasMultiplePoints(u)
  {
    var s := [sign] + u;
    assert s[0] == sign && s[1..] == u;
    assert WithoutSign(s) == u && WithoutSign(u) == u;
  }

  /** Trimmed text that starts with neither a sign, a digit nor the point is rejected. */
  lemma ParseDecimalBadStart(s: string)
    requires |s| >= 1 && !IsTrimmed(s[0]) && !IsTrimmed(s[|s| - 1])
    requires s[0] != '-' && s[0] != '+' && !IsDigit(s[0]) && s[0] != '.'
    ensures ParseDecimal(s) == None
  {
    ParseDecimalUnsigned(s);
    UnsignedBadStart(s);
  }

  /** A point without a digit on either side is rejected. */
  lemma ParseDecimalLoneDot(s: string)
    requires s == "."
    ensures ParseDecimal(s) == None
  {
    assert |s| == 1 && s[0] == '.';
    ParseDecimalUnsigned(s);
    assert IndexOfDot(s) == 0 && s[1..] == [];
  }

  /** A literal that starts with neither a digit nor the point is rejected. */
  lemma UnsignedBadStart(s: string)
    requires |s| >= 1 && !IsDigit(s[0]) && s[0] != '.'
    ensures UnsignedDecimal(s) == None
  {
    var k := IndexOfDot(s);
    assert k >= 1 && s[..k][0] == s[0];
  }
}
