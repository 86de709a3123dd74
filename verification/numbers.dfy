/**
 * Rust's `i8` and its decimal text form: the `Display` formatting used by
 * `format!("{}", v)` and the `str::parse::<i8>` used by the coordinates parser.
 */
module Numbers {
  import opened Wrappers

  /** Rust's `i8`. */
  newtype int8 = v: int | -128 <= v <= 127

  predicate InInt8(v: int) {
    -128 <= v <= 127
  }

  predicate IsDigit(ch: char) {
    '0' <= ch <= '9'
  }

  function DigitValue(ch: char): nat
    requires IsDigit(ch)
  {
    (ch as int) - ('0' as int)
  }

  function DigitChar(d: nat): (ch: char)
    requires d < 10
    ensures IsDigit(ch) && DigitValue(ch) == d
  {
    ('0' as int + d) as char
  }

  predicate AllDigits(s: string) {
    forall i :: 0 <= i < |s| ==> IsDigit(s[i])
  }

  /** The pattern `[0-9]+`: one or more ASCII digits. */
  predicate IsDigits(s: string) {
    |s| > 0 && AllDigits(s)
  }

  /** The pattern `-?[0-9]+`: an optional minus sign, then one or more digits. */
  predicate IsNumeral(s: string) {
    IsDigits(s) || (|s| > 0 && s[0] == '-' && IsDigits(s[1..]))
  }

  /** The value of a digit string, most significant digit first. */
  function DigitsValue(s: string): nat
    requires AllDigits(s)
  {
    if s == [] then 0 else 10 * DigitsValue(s[..|s| - 1]) + DigitValue(s[|s| - 1])
  }

  /** The mathematical value a numeral denotes. */
  function NumeralValue(s: string): int
    requires IsNumeral(s)
  {
    if s[0] == '-' then -(DigitsValue(s[1..]) as int) else DigitsValue(s)
  }

  /**
   * `str::parse::<i8>` on a numeral: it succeeds exactly when the value the
   * numeral denotes fits in `i8` (leading zeros and "-0" are accepted).
   */
  function ParseInt8(s: string): Option<int8>
    requires IsNumeral(s)
  {
    var v := NumeralValue(s);
    if InInt8(v) then Some(v as int8) else None
  }

  /** The shortest decimal digits of a magnitude an `i8` can have: at most three. */
  function MagnitudeDigits(n: nat): string
    requires n <= 128
  {
    if n < 10 then [DigitChar(n)]
    else if n < 100 then [DigitChar(n / 10), DigitChar(n % 10)]
    else [DigitChar(n / 100), DigitChar(n / 10 % 10), DigitChar(n % 10)]
  }

  /** `format!("{}", v)` for an `i8`: a minus sign for negatives, then the digits. */
  function ToDecimal(v: int8): string
  {
    if v < 0 then "-" + MagnitudeDigits(-(v as int)) else MagnitudeDigits(v as int)
  }

  /** The number of characters `format!("{}", v)` takes. */
  function DecimalWidth(v: int): nat {
    (if v < 0 then 1 else 0) + (if -10 < v < 10 then 1 else if -100 < v < 100 then 2 else 3)
  }

  lemma DigitsValueOfTwo(a: char, b: char)
    requires IsDigit(a) && IsDigit(b)
    ensures DigitsValue([a, b]) == 10 * DigitValue(a) + DigitValue(b)
  {
    assert [a, b][..1] == [a];
    assert [a][..0] == [];
    assert DigitsValue([a]) == DigitValue(a);
  }

  lemma DigitsValueOfThree(a: char, b: char, c: char)
    requires IsDigit(a) && IsDigit(b) && IsDigit(c)
    ensures DigitsValue([a, b, c]) == 100 * DigitValue(a) + 10 * DigitValue(b) + DigitValue(c)
  {
    assert [a, b, c][..2] == [a, b];
    DigitsValueOfTwo(a, b);
  }

  /** The digits of a magnitude denote it. */
  lemma MagnitudeDigitsDenote(n: nat)
    requires n <= 128
    ensures IsDigits(MagnitudeDigits(n)) && DigitsValue(MagnitudeDigits(n)) == n
  {
    if n >= 100 {
      var q := n / 10;
      assert n == 10 * q + n % 10;
      assert q == 10 * (q / 10) + q % 10;
      assert n / 100 == q / 10;
      DigitsValueOfThree(DigitChar(n / 100), DigitChar(n / 10 % 10), DigitChar(n % 10));
    } else if n >= 10 {
      DigitsValueOfTwo(DigitChar(n / 10), DigitChar(n % 10));
    }
  }

  /** The decimal text of a value is a numeral, without a comma, that denotes the value. */
  lemma ToDecimalDenotes(v: int8)
    ensures IsNumeral(ToDecimal(v)) && NumeralValue(ToDecimal(v)) == v as int
    ensures ',' !in ToDecimal(v)
    ensures |ToDecimal(v)| == DecimalWidth(v as int)
  {
    var r := ToDecimal(v);
    if v < 0 {
      MagnitudeDigitsDenote(-(v as int));
      assert r[1..] == MagnitudeDigits(-(v as int));
    } else {
      MagnitudeDigitsDenote(v as int);
    }
  }

  /** The text of a value between two bounds is no longer than the text of one of them. */
  lemma DecimalWidthBetween(lo: int, v: int, hi: int)
    requires lo <= v <= hi
    ensures DecimalWidth(v) <= DecimalWidth(lo) || DecimalWidth(v) <= DecimalWidth(hi)
  {
  }
}
