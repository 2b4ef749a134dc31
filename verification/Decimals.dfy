/** Exact comparison of JSON numbers: the signed significant digits and the decimal
    exponent of a number's text, without rounding and without expanding powers. */
module Decimals {
  import opened Basics

  // ---------------------------------------------------------------- number texts

  predicate IsDigit(c: char) { '0' <= c <= '9' }

  predicate AllDigits(s: string) {
    forall i :: 0 <= i < |s| ==> IsDigit(s[i])
  }

  datatype Sign = NoSign | Plus | Minus
  datatype Exponent = Exponent(upper: bool, sign: Sign, digits: string)

  /** The parts of a number in the grammar of section 6 of RFC 8259. */
  datatype Number = Number(negative: bool, whole: string, fraction: Option<string>, exponent: Option<Exponent>)

  predicate WellFormed(n: Number) {
    && n.whole != "" && AllDigits(n.whole) && (n.whole[0] == '0' ==> n.whole == "0")
    && (n.fraction.Some? ==> n.fraction.value != "" && AllDigits(n.fraction.value))
    && (n.exponent.Some? ==> n.exponent.value.digits != "" && AllDigits(n.exponent.value.digits))
  }

  function SignText(s: Sign): string {
    match s
    case NoSign => ""
    case Plus => "+"
    case Minus => "-"
  }

  function FractionText(n: Number): string {
    if n.fraction.Some? then "." + n.fraction.value else ""
  }

  function ExponentText(n: Number): string {
    if n.exponent.None? then ""
    else (if n.exponent.value.upper then "E" else "e") + SignText(n.exponent.value.sign) + n.exponent.value.digits
  }

  /** The text of a number; every valid JSON number text has this form. */
  function Text(n: Number): string {
    (if n.negative then "-" else "") + n.whole + FractionText(n) + ExponentText(n)
  }

  // ---------------------------------------------------------------- the value of a number

  function DigitValue(c: char): nat
    requires IsDigit(c)
  {
    c as int - '0' as int
  }

  function Value(s: string): nat
    requires AllDigits(s)
  {
    if s == "" then 0 else 10 * Value(s[..|s| - 1]) + DigitValue(s[|s| - 1])
  }

  /** x * 10^e. */
  function Scaled(x: real, e: int): real
    decreases if e < 0 then -e else e
  {
    if e == 0 then x else if e > 0 then 10.0 * Scaled(x, e - 1) else Scaled(x, e + 1) / 10.0
  }

  function Fraction(n: Number): string {
    if n.fraction.Some? then n.fraction.value else ""
  }

  function WrittenExponent(n: Number): int
    requires WellFormed(n)
  {
    if n.exponent.None? then 0
    else if n.exponent.value.sign.Minus? then 0 - Value(n.exponent.value.digits)
    else Value(n.exponent.value.digits)
  }

  /** The number the text denotes. */
  function Denotes(n: Number): real
    requires WellFormed(n)
  {
    var magnitude := Scaled(Value(n.whole) as real + Scaled(Value(Fraction(n)) as real, -|Fraction(n)|),
      WrittenExponent(n));
    if n.negative then -magnitude else magnitude
  }

  // ---------------------------------------------------------------- the code

  function Lower(c: char): char {
    if 'A' <= c <= 'Z' then (c as int + 32) as char else c
  }

  function ToLower(s: string): (r: string)
    ensures |r| == |s| && forall i :: 0 <= i < |s| ==> r[i] == Lower(s[i])
  {
    if s == "" then "" else [Lower(s[0])] + ToLower(s[1..])
  }

  /** The text before and after the first `separator`, if there is one. */
  function Cut(s: string, separator: char): (string, Option<string>) {
    if s == "" then ("", None)
    else if s[0] == separator then ("", Some(s[1..]))
    else var (before, after) := Cut(s[1..], separator); ([s[0]] + before, after)
  }

  function TrimLeft(s: string): string {
    if s != "" && s[0] == '0' then TrimLeft(s[1..]) else s
  }

  function TrimRight(s: string): string {
    if s != "" && s[|s| - 1] == '0' then TrimRight(s[..|s| - 1]) else s
  }

  /** big.Int.SetString in base ten. */
  function ParseInteger(s: string): Option<int> {
    if s == "" then None
    else
      var digits := if s[0] == '+' || s[0] == '-' then s[1..] else s;
      if digits == "" || !AllDigits(digits) then None
      else Some(if s[0] == '-' then 0 - Value(digits) else Value(digits))
  }

  function DigitChar(d: nat): (c: char)
    requires d < 10
    ensures IsDigit(c) && DigitValue(c) == d
  {
    ('0' as int + d) as char
  }

  function NaturalText(n: nat): string {
    if n < 10 then [DigitChar(n)] else NaturalText(n / 10) + [DigitChar(n % 10)]
  }

  /** big.Int.String. */
  function IntegerText(i: int): string {
    if i < 0 then "-" + NaturalText(-i) else NaturalText(i)
  }

  /** Digits and exponent from the parts of a mantissa and the written exponent. */
  function Normalize(negative: bool, whole: string, fractional: Option<string>, written: int): (string, string) {
    var exponent := if fractional.None? then written else written - |fractional.value|;
    var digits := TrimLeft(whole + (if fractional.None? then "" else fractional.value));
    if digits == "" then ("0", "0")
    else
      var trimmed := TrimRight(digits);
      (if negative then "-" + trimmed else trimmed, IntegerText(exponent + |digits| - |trimmed|))
  }

  /** Digits and exponent of a number's text; `None` where the code would panic. */
  function DecimalValue(text: string): Option<(string, string)> {
    var (mantissa, exponentText) := Cut(ToLower(text), 'e');
    var written := if exponentText.None? then Some(0) else ParseInteger(exponentText.value);
    if written.None? then None
    else
      var negative := mantissa != "" && mantissa[0] == '-';
      var (whole, fractional) := Cut(if negative then mantissa[1..] else mantissa, '.');
      Some(Normalize(negative, whole, fractional, written.value))
  }

  // ---------------------------------------------------------------- reading a text back

  lemma {:induction false} CutAt(before: string, after: string, separator: char)
    requires forall i :: 0 <= i < |before| ==> before[i] != separator
    ensures Cut(before + [separator] + after, separator) == (before, Some(after))
    ensures Cut(before, separator) == (before, None)
  {
    if before == "" {
      assert before + [separator] + after == [separator] + after;
    } else {
      assert (before + [separator] + after)[1..] == before[1..] + [separator] + after;
      CutAt(before[1..], after, separator);
      assert [before[0]] + before[1..] == before;
    }
  }

  function Mantissa(n: Number): string {
    (if n.negative then "-" else "") + n.whole + FractionText(n)
  }

  function AfterMark(e: Exponent): string {
    SignText(e.sign) + e.digits
  }

  lemma LowerParts(n: Number)
    requires WellFormed(n)
    ensures ToLower(Text(n)) == Mantissa(n) + (if n.exponent.None? then "" else ['e'] + AfterMark(n.exponent.value))
    ensures forall i :: 0 <= i < |Mantissa(n)| ==> Mantissa(n)[i] != 'e'
  {
    var mantissa := Mantissa(n);
    var tail := if n.exponent.None? then "" else ['e'] + AfterMark(n.exponent.value);
    assert Text(n) == mantissa + ExponentText(n);
    assert |ExponentText(n)| == |tail|;
    forall i | 0 <= i < |mantissa|
      ensures Lower(mantissa[i]) == mantissa[i] != 'e'
    {
    }
    forall i | 0 <= i < |tail|
      ensures Lower(ExponentText(n)[i]) == tail[i]
    {
    }
  }

  /** The canonical form the code computes from a number's parts. */
  function Canonical(n: Number): (string, string)
    requires WellFormed(n)
  {
    var digits := TrimLeft(n.whole + Fraction(n));
    if digits == "" then ("0", "0")
    else
      var trimmed := TrimRight(digits);
      (if n.negative then "-" + trimmed else trimmed,
       IntegerText(WrittenExponent(n) - |Fraction(n)| + |digits| - |trimmed|))
  }

  lemma CutJoined(before: string, after: Option<string>, separator: char)
    requires forall i :: 0 <= i < |before| ==> before[i] != separator
    ensures Cut(before + (if after.None? then "" else [separator] + after.value), separator) == (before, after)
  {
    if after.None? {
      CutAt(before, "", separator);
      assert before + "" == before;
    } else {
      CutAt(before, after.value, separator);
      assert before + ([separator] + after.value) == before + [separator] + after.value;
    }
  }

  lemma ExponentIsCut(n: Number)
    requires WellFormed(n)
    ensures Cut(ToLower(Text(n)), 'e') ==
            (Mantissa(n), if n.exponent.None? then None else Some(AfterMark(n.exponent.value)))
  {
    LowerParts(n);
    CutJoined(Mantissa(n), if n.exponent.None? then None else Some(AfterMark(n.exponent.value)), 'e');
  }

  lemma ExponentIsParsed(e: Exponent)
    requires e.digits != "" && AllDigits(e.digits)
    ensures ParseInteger(AfterMark(e)) == Some(if e.sign.Minus? then 0 - Value(e.digits) else Value(e.digits))
  {
    if e.sign.NoSign? {
      assert AfterMark(e) == e.digits;
    } else {
      var c := SignText(e.sign)[0];
      assert AfterMark(e)[0] == c && AfterMark(e)[1..] == e.digits;
    }
  }

  lemma FractionIsCut(n: Number)
    requires WellFormed(n)
    ensures n.negative <==> Mantissa(n) != "" && Mantissa(n)[0] == '-'
    ensures Cut(if n.negative then Mantissa(n)[1..] else Mantissa(n), '.') == (n.whole, n.fraction)
  {
    assert n.negative ==> Mantissa(n)[1..] == n.whole + FractionText(n);
    assert !n.negative ==> Mantissa(n) == n.whole + FractionText(n) && Mantissa(n)[0] == n.whole[0];
    CutAt(n.whole, Fraction(n), '.');
    assert n.fraction.Some? ==> n.whole + FractionText(n) == n.whole + ['.'] + Fraction(n);
    assert n.fraction.None? ==> n.whole + FractionText(n) == n.whole;
  }

  lemma AssemblesParts(text: string, mantissa: string, marked: Option<string>, written: int, whole: string,
      fraction: Option<string>, negative: bool)
    requires Cut(ToLower(text), 'e') == (mantissa, marked)
    requires if marked.None? then written == 0 else ParseInteger(marked.value) == Some(written)
    requires negative <==> mantissa != "" && mantissa[0] == '-'
    requires Cut(if negative then mantissa[1..] else mantissa, '.') == (whole, fraction)
    ensures DecimalValue(text) == Some(Normalize(negative, whole, fraction, written))
  {
  }

  /** On every valid number text the code finds the parts again and does not panic. */
  lemma ReadsParts(n: Number)
    requires WellFormed(n)
    ensures DecimalValue(Text(n)) == Some(Canonical(n))
  {
    ExponentIsCut(n);
    FractionIsCut(n);
    if n.exponent.Some? { ExponentIsParsed(n.exponent.value); }
    var marked := if n.exponent.None? then None else Some(AfterMark(n.exponent.value));
    AssemblesParts(Text(n), Mantissa(n), marked, WrittenExponent(n), n.whole, n.fraction, n.negative);
    NormalizesParts(n);
  }

  lemma NormalizesParts(n: Number)
    requires WellFormed(n)
    ensures Normalize(n.negative, n.whole, n.fraction, WrittenExponent(n)) == Canonical(n)
  {
    assert n.whole + (if n.fraction.None? then "" else n.fraction.value) == n.whole + Fraction(n);
  }

  // ---------------------------------------------------------------- scaling by ten

  /** `m` with `k` zeros appended. */
  function Shift(m: nat, k: nat): nat {
    if k == 0 then m else 10 * Shift(m, k - 1)
  }

  lemma {:induction false} ShiftIsInjective(m: nat, n: nat, k: nat)
    ensures Shift(m, k) == Shift(n, k) <==> m == n
    ensures Shift(m, k) == 0 <==> m == 0
  {
    if k > 0 { ShiftIsInjective(m, n, k - 1); }
  }

  lemma {:induction false} ValueAppend(s: string, t: string)
    requires AllDigits(s) && AllDigits(t)
    ensures AllDigits(s + t) && Value(s + t) == Shift(Value(s), |t|) + Value(t)
  {
    if t == "" {
      assert s + t == s;
    } else {
      ValueAppend(s, t[..|t| - 1]);
      assert (s + t)[..|s + t| - 1] == s + t[..|t| - 1];
    }
  }

  lemma {:induction false} ScaledAdds(x: real, y: real, e: int)
    ensures Scaled(x + y, e) == Scaled(x, e) + Scaled(y, e)
    decreases if e < 0 then -e else e
  {
    if e > 0 { ScaledAdds(x, y, e - 1); }
    if e < 0 { ScaledAdds(x, y, e + 1); }
  }

  lemma {:induction false} ScaledByTen(x: real, e: int)
    ensures Scaled(10.0 * x, e) == Scaled(x, e + 1) == 10.0 * Scaled(x, e)
    decreases if e < 0 then -e else e
  {
    if e > 0 { ScaledByTen(x, e - 1); }
    if e < 0 { ScaledByTen(x, e + 1); }
  }

  lemma {:induction false} ScaledTwice(x: real, d: int, e: int)
    ensures Scaled(Scaled(x, d), e) == Scaled(x, d + e)
    decreases if d < 0 then -d else d
  {
    if d > 0 {
      ScaledTwice(x, d - 1, e);
      ScaledByTen(Scaled(x, d - 1), e);
      ScaledByTen(x, d - 1 + e);
    } else if d < 0 {
      ScaledTwice(x, d + 1, e);
      ScaledByTen(Scaled(x, d), e);
      ScaledByTen(x, d + e);
    }
  }

  lemma {:induction false} ScaledIsMonotone(x: real, y: real, e: int)
    ensures Scaled(x, e) < Scaled(y, e) <==> x < y
    decreases if e < 0 then -e else e
  {
    if e > 0 { ScaledIsMonotone(x, y, e - 1); }
    if e < 0 { ScaledIsMonotone(x, y, e + 1); }
  }

  lemma {:induction false} ShiftIsScaled(m: nat, k: nat)
    ensures Shift(m, k) as real == Scaled(m as real, k)
  {
    if k > 0 { ShiftIsScaled(m, k - 1); }
  }

  /** Zeros may move between the digits and the exponent. */
  lemma ScaledShift(m: nat, k: nat, e: int)
    ensures Scaled(Shift(m, k) as real, e) == Scaled(m as real, k + e)
  {
    ShiftIsScaled(m, k);
    ScaledTwice(m as real, k, e);
  }

  lemma ScaledIsInjective(m: nat, n: nat, e: int)
    ensures Scaled(m as real, e) == Scaled(n as real, e) <==> m == n
  {
    ScaledIsMonotone(m as real, n as real, e);
    ScaledIsMonotone(n as real, m as real, e);
  }

  lemma EndsInZero(m: nat, k: nat)
    requires k > 0
    ensures Shift(m, k) % 10 == 0
  {
  }

  // ---------------------------------------------------------------- trimming

  lemma {:induction false} TrimLeftKeeps(s: string)
    requires AllDigits(s)
    ensures var t := TrimLeft(s);
            AllDigits(t) && Value(t) == Value(s) && (t != "" ==> t[0] != '0')
  {
    if s != "" && s[0] == '0' {
      TrimLeftKeeps(s[1..]);
      ValueAppend("0", s[1..]);
      assert "0" + s[1..] == s;
      ShiftIsInjective(0, 0, |s| - 1);
      assert "0"[..0] == "";
    }
  }

  lemma {:induction false} TrimRightShifts(s: string)
    requires AllDigits(s) && s != "" && s[0] != '0'
    ensures var t := TrimRight(s);
            && t != "" && AllDigits(t) && t[0] == s[0] && t[|t| - 1] != '0' && |t| <= |s|
            && Value(s) == Shift(Value(t), |s| - |t|)
  {
    if s[|s| - 1] == '0' { TrimRightShifts(s[..|s| - 1]); }
  }

  /** A digit string without leading zero is not zero, and its last digit is its
      remainder. */
  lemma {:induction false} LeadingDigit(s: string)
    requires AllDigits(s) && s != "" && s[0] != '0'
    ensures Value(s) > 0 && Value(s) % 10 == DigitValue(s[|s| - 1])
  {
    if |s| > 1 { LeadingDigit(s[..|s| - 1]); }
  }

  lemma {:induction false} DigitsAreUnique(s: string, t: string)
    requires AllDigits(s) && AllDigits(t) && s != "" && t != "" && s[0] != '0' && t[0] != '0' && Value(s) == Value(t)
    ensures s == t
  {
    LeadingDigit(s);
    LeadingDigit(t);
    var u, v := s[..|s| - 1], t[..|t| - 1];
    assert s == u + [s[|s| - 1]] && t == v + [t[|t| - 1]];
    assert Value(u) == Value(v);
    if u == "" {
      if v != "" { LeadingDigit(v); }
    } else {
      LeadingDigit(u);
      if v != "" { DigitsAreUnique(u, v); }
    }
  }

  predicate Trim(s: string) {
    AllDigits(s) && s != "" && s[0] != '0' && s[|s| - 1] != '0'
  }

  lemma LongerFormDiffers(s: string, e: int, t: string, f: int)
    requires Trim(s) && Trim(t) && e < f
    ensures Scaled(Value(s) as real, e) != Scaled(Value(t) as real, f)
  {
    LeadingDigit(s);
    EndsInZero(Value(t), f - e);
    ScaledShift(Value(t), f - e, e);
    ScaledIsInjective(Value(s), Shift(Value(t), f - e), e);
  }

  /** Trimmed digits and an exponent are determined by the number they form. */
  lemma FormIsUnique(s: string, e: int, t: string, f: int)
    requires Trim(s) && Trim(t)
    ensures Scaled(Value(s) as real, e) == Scaled(Value(t) as real, f) <==> s == t && e == f
  {
    if e < f {
      LongerFormDiffers(s, e, t, f);
    } else if e > f {
      LongerFormDiffers(t, f, s, e);
    } else {
      ScaledIsInjective(Value(s), Value(t), e);
      if Value(s) == Value(t) { DigitsAreUnique(s, t); }
    }
  }

  // ---------------------------------------------------------------- integer texts

  lemma {:induction false} NaturalTextReads(n: nat)
    ensures NaturalText(n) != "" && AllDigits(NaturalText(n)) && Value(NaturalText(n)) == n
  {
    if n >= 10 {
      NaturalTextReads(n / 10);
      assert NaturalText(n)[..|NaturalText(n)| - 1] == NaturalText(n / 10);
    } else {
      assert NaturalText(n)[..0] == "";
    }
  }

  lemma IntegerTextIsInjective(i: int, j: int)
    ensures IntegerText(i) == IntegerText(j) <==> i == j
  {
    NaturalTextReads(if i < 0 then -i else i);
    NaturalTextReads(if j < 0 then -j else j);
    if i < 0 { assert IntegerText(i)[0] == '-' && IntegerText(i)[1..] == NaturalText(-i); }
    if j < 0 { assert IntegerText(j)[0] == '-' && IntegerText(j)[1..] == NaturalText(-j); }
  }

  // ---------------------------------------------------------------- equal forms, equal numbers

  /** The digits without their point, and the exponent that puts it back. */
  function Whole(n: Number): string {
    n.whole + Fraction(n)
  }

  function Scale(n: Number): int
    requires WellFormed(n)
  {
    WrittenExponent(n) - |Fraction(n)|
  }

  function Significant(n: Number): string {
    TrimLeft(Whole(n))
  }

  function Trimmed(n: Number): string {
    TrimRight(Significant(n))
  }

  function Shown(n: Number): int
    requires WellFormed(n)
  {
    Scale(n) + |Significant(n)| - |Trimmed(n)|
  }

  lemma DigitsOf(n: Number)
    requires WellFormed(n)
    ensures AllDigits(Whole(n)) && (Value(Whole(n)) == 0 <==> Significant(n) == "")
    ensures Significant(n) != "" ==>
              Trim(Trimmed(n)) && |Trimmed(n)| <= |Significant(n)|
              && Value(Whole(n)) == Shift(Value(Trimmed(n)), |Significant(n)| - |Trimmed(n)|)
  {
    TrimLeftKeeps(Whole(n));
    if Significant(n) != "" {
      TrimRightShifts(Significant(n));
      LeadingDigit(Significant(n));
    }
  }

  lemma FormOf(n: Number)
    requires WellFormed(n)
    ensures AllDigits(Whole(n)) && (Value(Whole(n)) == 0 <==> Significant(n) == "")
    ensures Significant(n) != "" ==>
              Trim(Trimmed(n)) && |Trimmed(n)| <= |Significant(n)|
              && Value(Whole(n)) == Shift(Value(Trimmed(n)), |Significant(n)| - |Trimmed(n)|)
    ensures Canonical(n) == if Significant(n) == "" then ("0", "0")
                            else (if n.negative then "-" + Trimmed(n) else Trimmed(n), IntegerText(Shown(n)))
  {
    DigitsOf(n);
  }

  lemma SignedDigits(p: bool, s: string, q: bool, t: string)
    requires Trim(s) && Trim(t)
    ensures (if p then "-" + s else s) == (if q then "-" + t else t) <==> p == q && s == t
    ensures (if p then "-" + s else s) != "0"
  {
    assert ("-" + s)[1..] == s && ("-" + t)[1..] == t;
    assert ("-" + s)[0] == ("-" + t)[0] == '-';
  }

  function Magnitude(n: Number): real
    requires WellFormed(n)
  {
    if n.negative then -Denotes(n) else Denotes(n)
  }

  lemma MagnitudeOfWhole(n: Number)
    requires WellFormed(n) && AllDigits(Whole(n))
    ensures Magnitude(n) == Scaled(Value(Whole(n)) as real, Scale(n))
  {
    var whole, fraction, k, w := Value(n.whole), Value(Fraction(n)), |Fraction(n)|, WrittenExponent(n);
    ValueAppend(n.whole, Fraction(n));
    assert Value(Whole(n)) == Shift(whole, k) + fraction;
    ScaledAdds(Shift(whole, k) as real, fraction as real, -k);
    ScaledShift(whole, k, -k);
    ScaledTwice(Value(Whole(n)) as real, -k, w);
  }

  /** The canonical parts of a nonzero number denote it; zero has none. */
  lemma MagnitudeOfForm(n: Number)
    requires WellFormed(n)
    ensures Significant(n) == "" ==> Denotes(n) == 0.0
    ensures Significant(n) != "" ==>
              Trim(Trimmed(n)) && Magnitude(n) == Scaled(Value(Trimmed(n)) as real, Shown(n)) > 0.0
  {
    FormOf(n);
    MagnitudeOfWhole(n);
    ScaledShift(0, 0, Scale(n));
    ScaledOfZero(Scale(n));
    if Significant(n) != "" {
      ScaledShift(Value(Trimmed(n)), |Significant(n)| - |Trimmed(n)|, Scale(n));
      LeadingDigit(Trimmed(n));
      ScaledOfZero(Shown(n));
      ScaledIsMonotone(0.0, Value(Trimmed(n)) as real, Shown(n));
    }
  }

  lemma {:induction false} ScaledOfZero(e: int)
    ensures Scaled(0.0, e) == 0.0
    decreases if e < 0 then -e else e
  {
    if e > 0 { ScaledOfZero(e - 1); }
    if e < 0 { ScaledOfZero(e + 1); }
  }

  lemma SameCanonicalExactly(a: Number, b: Number)
    requires WellFormed(a) && WellFormed(b)
    requires Significant(a) != "" && Significant(b) != ""
    ensures Canonical(a) == Canonical(b) <==> Denotes(a) == Denotes(b)
  {
    FormOf(a);
    FormOf(b);
    MagnitudeOfForm(a);
    MagnitudeOfForm(b);
    SignedDigits(a.negative, Trimmed(a), b.negative, Trimmed(b));
    IntegerTextIsInjective(Shown(a), Shown(b));
    FormIsUnique(Trimmed(a), Shown(a), Trimmed(b), Shown(b));
  }

  lemma NonzeroForm(n: Number)
    requires WellFormed(n)
    ensures Canonical(n) == ("0", "0") <==> Denotes(n) == 0.0
    ensures Significant(n) == "" <==> Denotes(n) == 0.0
  {
    FormOf(n);
    MagnitudeOfForm(n);
    if Significant(n) != "" { SignedDigits(n.negative, Trimmed(n), n.negative, Trimmed(n)); }
  }

  /** Two valid number texts get the same digits and exponent exactly when they
      denote the same number, whatever their lengths, exponents and zero signs. */
  lemma SameFormExactly(a: Number, b: Number)
    requires WellFormed(a) && WellFormed(b)
    ensures DecimalValue(Text(a)).Some? && DecimalValue(Text(b)).Some?
    ensures DecimalValue(Text(a)) == DecimalValue(Text(b)) <==> Denotes(a) == Denotes(b)
  {
    ReadsParts(a);
    ReadsParts(b);
    NonzeroForm(a);
    NonzeroForm(b);
    if Significant(a) != "" && Significant(b) != "" { SameCanonicalExactly(a, b); }
  }
}
