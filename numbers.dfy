/**
 * The two number parsers the update path relies on: `Long.parseLong` for the
 * order id and `new BigDecimal(String)` for the total amount, together with the
 * decimal rendering they invert.
 */
module Numbers {
  import opened Wrappers

  /** Bounds of a Java `long`. */
  const MinLong: int := -0x8000_0000_0000_0000
  const MaxLong: int := 0x7FFF_FFFF_FFFF_FFFF

  predicate IsDigit(c: char) { '0' <= c <= '9' }

  predicate AllDigits(s: string)
  {
    forall i :: 0 <= i < |s| ==> IsDigit(s[i])
  }

  function DigitValue(c: char): nat
    requires IsDigit(c)
  {
    c as int - '0' as int
  }

  function DigitChar(d: nat): char
    requires d < 10
  {
    ('0' as int + d) as char
  }

  /** The value of a string of decimal digits, most significant first. */
  function DigitsValue(s: string): nat
    requires AllDigits(s)
  {
    if |s| == 0 then 0 else DigitsValue(s[..|s| - 1]) * 10 + DigitValue(s[|s| - 1])
  }

  function Pow10(n: nat): (r: nat)
    ensures r >= 1
  {
    if n == 0 then 1 else 10 * Pow10(n - 1)
  }

  /** `Long.toString` for a non-negative value: no sign, no leading zeros. */
  function FormatNat(n: nat): (s: string)
    ensures |s| > 0 && AllDigits(s)
  {
    if n < 10 then [DigitChar(n)] else FormatNat(n / 10) + [DigitChar(n % 10)]
  }

  /** `Long.toString`. */
  function FormatLong(n: int): string
  {
    if n < 0 then "-" + FormatNat(-n) else FormatNat(n)
  }

  /** `s` without its leading '+' or '-', if it has one. */
  function Unsigned(s: string): string
  {
    if |s| > 0 && (s[0] == '-' || s[0] == '+') then s[1..] else s
  }

  /** Leading zeros dropped, keeping a final digit. */
  function DropZeros(s: string): string
  {
    if |s| > 1 && s[0] == '0' then DropZeros(s[1..]) else s
  }

  /**
   * `Long.parseLong`: an optional '+' or '-' followed by at least one digit,
   * whose value lies in the range of a `long`; None where Java throws
   * NumberFormatException.
   */
  function ParseLong(s: string): (r: Option<int>)
    ensures r.Some? ==> MinLong <= r.value <= MaxLong
    ensures r.Some? ==> |s| > 0 && (IsDigit(s[0]) || s[0] == '-' || s[0] == '+')
    ensures r.Some? ==> |Unsigned(s)| > 0 && AllDigits(Unsigned(s))
  {
    var digits := Unsigned(s);
    if |digits| == 0 || !AllDigits(digits) then None
    else
      var v: int := if s[0] == '-' then 0 - (DigitsValue(digits) as int) else DigitsValue(digits);
      if MinLong <= v <= MaxLong then Some(v) else None
  }

  /**
   * Completeness: an optional sign followed by any digits, leading zeros
   * included, is accepted with their value whenever it fits a `long`.
   */
  lemma {:induction false} ParseLongDigits(sign: string, d: string)
    requires sign == "" || sign == "+" || sign == "-"
    requires |d| > 0 && AllDigits(d)
    requires MinLong <= (if sign == "-" then -(DigitsValue(d) as int) else DigitsValue(d) as int) <= MaxLong
    ensures ParseLong(sign + d) == Some(if sign == "-" then -(DigitsValue(d) as int) else DigitsValue(d) as int)
  {
    var s := sign + d;
    if sign == "" {
      assert s == d;
    } else {
      assert s[1..] == d;
    }
  }

  /** The position of the first '.' in `s`, if any. */
  function DotIndex(s: string): (r: Option<nat>)
    ensures r.Some? ==> r.value < |s| && s[r.value] == '.' && forall i :: 0 <= i < r.value ==> s[i] != '.'
    ensures r.None? ==> forall i :: 0 <= i < |s| ==> s[i] != '.'
  {
    if |s| == 0 then None
    else if s[0] == '.' then Some(0)
    else match DotIndex(s[1..])
      case None => None
      case Some(k) => Some(k + 1)
  }

  /** An unsigned significand: digits, optionally with one '.', and at least one digit. */
  function ParseUnsignedDecimal(s: string): Option<real>
  {
    match DotIndex(s)
    case None =>
      if |s| > 0 && AllDigits(s) then Some(DigitsValue(s) as real) else None
    case Some(k) =>
      var whole, fraction := s[..k], s[k + 1..];
      if |whole| + |fraction| > 0 && AllDigits(whole) && AllDigits(fraction)
      then Some(DigitsValue(whole) as real + DigitsValue(fraction) as real / Pow10(|fraction|) as real)
      else None
  }

  /**
   * `new BigDecimal(s)` without exponent notation: an optional sign and an
   * unsigned significand; None where Java throws NumberFormatException.
   */
  function ParseDecimal(s: string): (r: Option<real>)
    ensures r.Some? ==> |s| > 0
    ensures r.Some? && r.value < 0.0 ==> s[0] == '-'
    ensures r.Some? && s[0] == '-' ==> r.value <= 0.0
  {
    if |s| == 0 then None
    else if s[0] == '-' then
      match ParseUnsignedDecimal(s[1..])
      case Some(v) => Some(-v)
      case None => None
    else if s[0] == '+' then ParseUnsignedDecimal(s[1..])
    else ParseUnsignedDecimal(s)
  }

  /** The rendered digits of `n` read back as `n`. */
  lemma {:induction false} FormatNatValue(n: nat)
    ensures DigitsValue(FormatNat(n)) == n
  {
    if n >= 10 {
      var s := FormatNat(n);
      assert s[..|s| - 1] == FormatNat(n / 10);
      FormatNatValue(n / 10);
    }
  }

  /** Round trip: every `long` parses back from its own rendering. */
  lemma {:induction false} ParseLongFormat(n: int)
    requires MinLong <= n <= MaxLong
    ensures ParseLong(FormatLong(n)) == Some(n)
  {
    if n < 0 {
      var s := FormatLong(n);
      assert s[1..] == FormatNat(-n);
      FormatNatValue(-n);
    } else {
      FormatNatValue(n);
    }
  }

  /** Any string `Long.parseLong` accepts is also a decimal of the same value. */
  lemma {:induction false} LongIsDecimal(s: string, n: int)
    requires ParseLong(s) == Some(n)
    ensures ParseDecimal(s) == Some(n as real)
  {
    var digits := Unsigned(s);
    assert AllDigits(digits);
    assert DotIndex(digits).None?;
  }

  /** A string of digits, with or without leading zeros, is read as its value. */
  lemma {:induction false} ParseDecimalWhole(w: string)
    requires |w| > 0 && AllDigits(w)
    ensures ParseDecimal(w) == Some(DigitsValue(w) as real)
  {
    assert DotIndex(w).None?;
  }

  /**
   * A significand with a '.' is read as w + f / 10^|f| for any digit strings
   * `w` and `f`, either of them possibly empty but not both; one with a
   * leading zero or outside the range of a `long` included.
   */
  lemma {:induction false} ParseDecimalFraction(w: string, f: string)
    requires AllDigits(w) && AllDigits(f) && |w| + |f| > 0
    ensures ParseDecimal(w + "." + f) == Some(DigitsValue(w) as real + DigitsValue(f) as real / Pow10(|f|) as real)
  {
    var s := w + "." + f;
    var k := |w|;
    assert s[k] == '.';
    assert forall i :: 0 <= i < k ==> s[i] == w[i];
    assert DotIndex(s) == Some(k);
    assert s[..k] == w;
    assert s[k + 1..] == f;
    if k == 0 {
      assert s[0] == '.';
    } else {
      assert IsDigit(s[0]);
    }
  }

  /** Without a leading sign, `new BigDecimal` reads the string as an unsigned significand. */
  lemma ParseDecimalUnsigned(t: string)
    requires |t| > 0 ==> t[0] != '-' && t[0] != '+'
    ensures ParseDecimal(t) == ParseUnsignedDecimal(t)
  {
    if |t| == 0 {
      assert DotIndex(t).None?;
    }
  }

  /** A leading zero adds nothing to the value. */
  lemma {:induction false} LeadingZeroValue(d: string)
    requires AllDigits(d) && |d| > 1 && d[0] == '0'
    ensures DigitsValue(d) == DigitsValue(d[1..])
  {
    var p := d[..|d| - 1];
    assert d[1..][..|d| - 2] == p[1..];
    if |p| > 1 {
      LeadingZeroValue(p);
    } else {
      assert DigitsValue(p) == DigitsValue(p[..0]) * 10 + DigitValue(p[0]);
    }
  }

  /** Digits without a leading zero are worth at least 1. */
  lemma {:induction false} LeadingDigitPositive(d: string)
    requires AllDigits(d) && |d| > 0 && d[0] != '0'
    ensures DigitsValue(d) >= 1
  {
    if |d| > 1 {
      LeadingDigitPositive(d[..|d| - 1]);
    }
  }

  /** Digits without a leading zero are exactly the rendering of their value. */
  lemma {:induction false} CanonicalDigits(d: string)
    requires AllDigits(d) && |d| > 0 && (|d| == 1 || d[0] != '0')
    ensures FormatNat(DigitsValue(d)) == d
  {
    if |d| > 1 {
      var p := d[..|d| - 1];
      LeadingDigitPositive(p);
      CanonicalDigits(p);
      assert d == p + [d[|d| - 1]];
    } else {
      assert DigitsValue(d) == DigitsValue(d[..0]) * 10 + DigitValue(d[0]);
    }
  }

  /** Dropping leading zeros from digits leaves the rendering of their value. */
  lemma {:induction false} DropZerosFormat(d: string)
    requires AllDigits(d) && |d| > 0
    ensures DropZeros(d) == FormatNat(DigitsValue(d))
  {
    if |d| > 1 && d[0] == '0' {
      LeadingZeroValue(d);
      DropZerosFormat(d[1..]);
    } else {
      CanonicalDigits(d);
    }
  }

  /**
   * Converse round trip: whatever `Long.parseLong` accepts is an optional sign,
   * some leading zeros and the rendering of the value's magnitude, with '-'
   * wherever the value is negative and never before a positive value.
   */
  lemma {:induction false} ParseLongShape(s: string, n: int)
    requires ParseLong(s) == Some(n)
    ensures DropZeros(Unsigned(s)) == FormatNat(if n < 0 then -n else n)
    ensures n < 0 ==> s[0] == '-'
    ensures n > 0 ==> s[0] != '-'
  {
    DropZerosFormat(Unsigned(s));
  }

  /** A sign in front of an unsigned significand negates it or leaves it as it is. */
  lemma {:induction false} ParseDecimalSign(t: string)
    ensures ParseUnsignedDecimal(t).Some? ==> ParseDecimal("-" + t) == Some(-ParseUnsignedDecimal(t).value)
    ensures ParseDecimal("+" + t) == ParseUnsignedDecimal(t)
    ensures ParseDecimal("-" + t).Some? ==> ParseUnsignedDecimal(t).Some?
  {
    assert ("-" + t)[1..] == t;
    assert ("+" + t)[1..] == t;
  }

  /**
   * What `new BigDecimal` accepts, after an optional sign: digits and at most
   * one '.', with at least one digit; any other character is rejected.
   */
  lemma {:induction false} ParseDecimalShape(s: string)
    requires ParseDecimal(s).Some?
    ensures forall i :: 0 <= i < |Unsigned(s)| ==> IsDigit(Unsigned(s)[i]) || Unsigned(s)[i] == '.'
    ensures forall i, j :: 0 <= i < j < |Unsigned(s)| && Unsigned(s)[i] == '.' ==> Unsigned(s)[j] != '.'
    ensures exists i :: 0 <= i < |Unsigned(s)| && IsDigit(Unsigned(s)[i])
  {
    var u := Unsigned(s);
    assert ParseUnsignedDecimal(u).Some?;
    match DotIndex(u)
    case None =>
      assert IsDigit(u[0]);
    case Some(k) =>
      var whole, fraction := u[..k], u[k + 1..];
      forall i | 0 <= i < |u|
        ensures IsDigit(u[i]) || u[i] == '.'
        ensures u[i] == '.' ==> i == k
      {
        if i < k {
          assert u[i] == whole[i];
        } else if i > k {
          assert u[i] == fraction[i - k - 1];
        }
      }
      if |whole| > 0 {
        assert IsDigit(u[0]);
      } else {
        assert IsDigit(u[k + 1]);
      }
  }
}
