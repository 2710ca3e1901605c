/**
 * The small part of Python's string formatting and parsing that the
 * catalog builders rely on: `'{0:05d}'`, `'{0:5.0f}'`, `'{0:2.1f}'` and
 * `'{0:3.2f}'` on non-negative values, `str.split` on one character, and
 * `float()` applied to the strings those formats produce.
 *
 * Fixed-point values are carried as integers: a log g of 4.5 written with
 * one decimal is the nat 45 (tenths), written with two decimals it is 450
 * (hundredths).
 */
module Text {
  import opened Common

  predicate IsDigit(c: char) {
    '0' <= c <= '9'
  }

  predicate AllDigits(s: string) {
    forall i :: 0 <= i < |s| ==> IsDigit(s[i])
  }

  function DigitChar(d: nat): (c: char)
    requires d < 10
    ensures IsDigit(c) && DigitValue(c) == d
  {
    (('0' as int) + d) as char
  }

  function DigitValue(c: char): nat
    requires IsDigit(c)
  {
    (c as int) - ('0' as int)
  }

  /** `n` repetitions of `c`. */
  function Repeat(c: char, n: nat): (s: string)
    ensures |s| == n && forall i :: 0 <= i < n ==> s[i] == c
  {
    seq(n, _ => c)
  }

  /** The shortest decimal spelling of `n` (Python's `'{0:d}'`). */
  function DecimalDigits(n: nat): (s: string)
    ensures 1 <= |s| && AllDigits(s)
    decreases n
  {
    if n < 10 then [DigitChar(n)] else DecimalDigits(n / 10) + [DigitChar(n % 10)]
  }

  /** The number a digit string spells, most significant digit first. */
  function DigitsValue(s: string): nat
    requires AllDigits(s)
  {
    if s == [] then 0 else DigitsValue(s[..|s| - 1]) * 10 + DigitValue(s[|s| - 1])
  }

  /**
   * Python's `float()` on a string made of leading blanks and decimal
   * digits; `None` stands for the `ValueError` it raises on anything else
   * (the empty string included).
   */
  function ParseDecimal(s: string): Option<nat> {
    DigitsNumber(TrimLeadingSpaces(s))
  }

  function DigitsNumber(t: string): Option<nat> {
    if |t| > 0 && AllDigits(t) then Some(DigitsValue(t)) else None
  }

  /** Right-aligns `s` in a field of `width` characters filled with `fill`. */
  function PadLeft(s: string, width: nat, fill: char): (r: string)
    ensures |r| == if |s| >= width then |s| else width
    ensures r[|r| - |s|..] == s
    ensures forall i :: 0 <= i < |r| - |s| ==> r[i] == fill
  {
    if |s| >= width then s else Repeat(fill, width - |s|) + s
  }

  /** Drops leading spaces (the part of Python's `float()` that skips blanks). */
  function TrimLeadingSpaces(s: string): (r: string)
    ensures |r| <= |s| && r == s[|s| - |r|..]
    ensures r != [] ==> r[0] != ' '
    ensures forall i :: 0 <= i < |s| - |r| ==> s[i] == ' '
  {
    if s != [] && s[0] == ' ' then TrimLeadingSpaces(s[1..]) else s
  }

  /** `'{0:0<width>d}'.format(n)`: zero-padded decimal. */
  function FormatZeroPadded(n: nat, width: nat): string {
    PadLeft(DecimalDigits(n), width, '0')
  }

  /** `'{0:<width>.0f}'.format(n)` for an integral, non-negative value. */
  function FormatFixed0(n: nat, width: nat): string {
    PadLeft(DecimalDigits(n), width, ' ')
  }

  /** `'{0:<width>.1f}'.format(tenths / 10)`. */
  function FormatFixed1(tenths: nat, width: nat): string {
    PadLeft(PointText(tenths / 10, tenths % 10), width, ' ')
  }

  /** The integer part `q`, a decimal point and the single digit `r`. */
  function PointText(q: nat, r: nat): string
    requires r < 10
  {
    DecimalDigits(q) + "." + [DigitChar(r)]
  }

  /** `'{0:<width>.2f}'.format(hundredths / 100)`. */
  function FormatFixed2(hundredths: nat, width: nat): string {
    PadLeft(DecimalDigits(hundredths / 100) + "." +
            [DigitChar(hundredths / 10 % 10), DigitChar(hundredths % 10)], width, ' ')
  }

  /**
   * Python's `float()` on a string of the form `<blanks><digits>.<digit>`,
   * in tenths; `None` for any other string.
   */
  function ParseTenths(s: string): Option<nat> {
    PointNumber(TrimLeadingSpaces(s))
  }

  function PointNumber(t: string): Option<nat> {
    if |t| >= 3 && t[|t| - 2] == '.' && AllDigits(t[..|t| - 2]) && IsDigit(t[|t| - 1])
    then Some(DigitsValue(t[..|t| - 2]) * 10 + DigitValue(t[|t| - 1]))
    else None
  }

  /** The index of the first occurrence of `c` in `s`. */
  function IndexOf(s: string, c: char): (i: nat)
    requires c in s
    ensures i < |s| && s[i] == c && c !in s[..i]
  {
    if s[0] == c then 0 else 1 + IndexOf(s[1..], c)
  }

  /** Python's `s.split(sep)` for a one-character separator. */
  function Split(s: string, sep: char): (parts: seq<string>)
    ensures 1 <= |parts|
    ensures forall k :: 0 <= k < |parts| ==> sep !in parts[k]
    ensures Join(parts, sep) == s
    decreases |s|
  {
    if sep !in s then [s]
    else
      var i := IndexOf(s, sep);
      assert s == s[..i] + [sep] + s[i + 1..];
      [s[..i]] + Split(s[i + 1..], sep)
  }

  /** Python's `sep.join(parts)`. */
  function Join(parts: seq<string>, sep: char): string
    requires 1 <= |parts|
  {
    if |parts| == 1 then parts[0] else parts[0] + [sep] + Join(parts[1..], sep)
  }

  /** `s[n:]` in Python: empty when `s` is shorter than `n`. */
  function DropFirst(s: string, n: nat): string {
    if |s| >= n then s[n..] else []
  }

  /** `s[:-n]` in Python, for n >= 1: empty when `s` is shorter than `n`. */
  function DropLast(s: string, n: nat): string {
    if |s| >= n then s[..|s| - n] else []
  }

  // ---------------------------------------------------------------------
  // Lemmas
  // ---------------------------------------------------------------------

  /** Reading back the decimal spelling of `n` gives `n`. */
  lemma {:induction false} DecimalDigitsValue(n: nat)
    ensures DigitsValue(DecimalDigits(n)) == n
    decreases n
  {
    var s := DecimalDigits(n);
    if n >= 10 {
      DecimalDigitsValue(n / 10);
      assert s[..|s| - 1] == DecimalDigits(n / 10);
    }
  }

  /** Leading zeros do not change the value of a digit string. */
  lemma {:induction false} LeadingZerosValue(k: nat, s: string)
    requires AllDigits(s)
    ensures AllDigits(Repeat('0', k) + s)
    ensures DigitsValue(Repeat('0', k) + s) == DigitsValue(s)
    decreases |s|
  {
    var z := Repeat('0', k);
    if s == [] {
      assert z + s == z;
      ZerosValue(k);
    } else {
      var t := z + s;
      assert t[..|t| - 1] == z + s[..|s| - 1];
      LeadingZerosValue(k, s[..|s| - 1]);
    }
  }

  lemma {:induction false} ZerosValue(k: nat)
    ensures AllDigits(Repeat('0', k))
    ensures DigitsValue(Repeat('0', k)) == 0
  {
    if k > 0 {
      assert Repeat('0', k)[..k - 1] == Repeat('0', k - 1);
      ZerosValue(k - 1);
    }
  }

  /** Blank padding in front of a string that does not start with a blank is skipped exactly. */
  lemma {:induction false} TrimBlankPadding(s: string, width: nat)
    requires s != [] && s[0] != ' '
    ensures TrimLeadingSpaces(PadLeft(s, width, ' ')) == s
    decreases width
  {
    var p := PadLeft(s, width, ' ');
    if |s| < width {
      assert p[0] == ' ';
      assert p[1..] == PadLeft(s, width - 1, ' ');
      TrimBlankPadding(s, width - 1);
    }
  }

  /** `float('{0:0<w>d}'.format(n)) == n`: zero padding reads back as the same number. */
  lemma ZeroPaddedRoundTrip(n: nat, width: nat)
    ensures ParseDecimal(FormatZeroPadded(n, width)) == Some(n)
  {
    var d := DecimalDigits(n);
    DecimalDigitsValue(n);
    var f := FormatZeroPadded(n, width);
    if |d| < width {
      LeadingZerosValue(width - |d|, d);
    }
    assert IsDigit(f[0]);
    assert TrimLeadingSpaces(f) == f;
  }

  /** `float('{0:<w>.0f}'.format(n)) == n` for a non-negative integer `n`. */
  lemma Fixed0RoundTrip(n: nat, width: nat)
    ensures ParseDecimal(FormatFixed0(n, width)) == Some(n)
  {
    var d := DecimalDigits(n);
    DecimalDigitsValue(n);
    assert IsDigit(d[0]);
    TrimBlankPadding(d, width);
  }

  /** Reading back a value written with `'{0:<w>.1f}'` gives its tenths. */
  lemma Fixed1RoundTrip(tenths: nat, width: nat)
    ensures ParseTenths(FormatFixed1(tenths, width)) == Some(tenths)
  {
    var q, r := tenths / 10, tenths % 10;
    assert tenths == q * 10 + r;
    PointTextRoundTrip(q, r);
    var p := PointText(q, r);
    assert PointNumber(p) == Some(tenths);
    TrimBlankPadding(p, width);
    assert FormatFixed1(tenths, width) == PadLeft(p, width, ' ');
  }

  lemma PointTextRoundTrip(q: nat, r: nat)
    requires r < 10
    ensures PointText(q, r) != [] && PointText(q, r)[0] != ' '
    ensures PointNumber(PointText(q, r)) == Some(q * 10 + r)
  {
    var d := DecimalDigits(q);
    var s := PointText(q, r);
    DecimalDigitsValue(q);
    assert IsDigit(s[0]);
    assert s[|s| - 2] == '.' && s[..|s| - 2] == d;
  }

  /** The first occurrence of `c` in `a + [c] + b` is at `|a|` when `a` does not contain it. */
  lemma {:induction false} IndexOfAfter(a: string, c: char, b: string)
    requires c !in a
    ensures IndexOf(a + [c] + b, c) == |a|
    decreases |a|
  {
    if a != [] {
      assert (a + [c] + b)[1..] == a[1..] + [c] + b;
      IndexOfAfter(a[1..], c, b);
    }
  }

  /** Splitting `a + sep + b` where `a` holds no separator yields `a`, then the fields of `b`. */
  lemma SplitAfter(a: string, sep: char, b: string)
    requires sep !in a
    ensures Split(a + [sep] + b, sep) == [a] + Split(b, sep)
  {
    var s := a + [sep] + b;
    IndexOfAfter(a, sep, b);
    assert s[..|a|] == a;
    assert s[|a| + 1..] == b;
  }
}
