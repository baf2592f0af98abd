/** Decimal integers as text: the rendering of std::to_string (C++) and str (Python) for
    integral values, and the reading done by std::stoi and by `istream >> int`, both of which
    skip leading white space, accept one optional sign, need at least one digit and stop at
    the first character that is not a digit. */
module Decimal {
  import opened Wrappers

  predicate IsDigit(c: char) { '0' <= c <= '9' }

  /** The white-space characters of C's isspace in the "C" locale: space, \t, \n, \v, \f, \r. */
  predicate IsSpace(c: char) { c == ' ' || '\t' <= c <= '\r' }

  function DigitChar(d: int): (c: char)
    requires 0 <= d < 10
    ensures IsDigit(c)
  {
    ('0' as int + d) as char
  }

  /** The value of a digit character (meaningful only for digits). */
  function DigitValue(c: char): int
  {
    c as int - '0' as int
  }

  /** The digits of n, most significant first, without leading zeros. */
  function NatDigits(n: nat): (s: string)
    ensures |s| >= 1
    decreases n
  {
    if n < 10 then [DigitChar(n)] else NatDigits(n / 10) + [DigitChar(n % 10)]
  }

  /** std::to_string / str of an integer: a minus sign for negative values, then the digits. */
  function DecimalString(n: int): (s: string)
    ensures |s| >= 1
    decreases if n < 0 then 1 else 0
  {
    if n < 0 then "-" + DecimalString(-n) else NatDigits(n)
  }

  /** The value of a run of digits, read most significant first. */
  function DigitsValue(s: string): int
  {
    if s == [] then 0 else DigitsValue(s[..|s| - 1]) * 10 + DigitValue(s[|s| - 1])
  }

  /** The end of the run of digits that starts at i. */
  function DigitsEnd(s: string, i: nat): (j: nat)
    requires i <= |s|
    ensures i <= j <= |s|
    ensures forall k :: i <= k < j ==> IsDigit(s[k])
    ensures j == |s| || !IsDigit(s[j])
    decreases |s| - i
  {
    if i < |s| && IsDigit(s[i]) then DigitsEnd(s, i + 1) else i
  }

  /** Position e ends a number: a digit sits just before it, and no digit at it. */
  predicate EndsNumber(s: string, e: nat)
  {
    0 < e <= |s| && IsDigit(s[e - 1]) && (e == |s| || !IsDigit(s[e]))
  }

  /** Reads one integer starting at position i; yields its value and the position just after
      its last digit, or None where stoi throws and where `>>` sets the fail bit. Leading
      white space is skipped. */
  function ScanInt(s: string, i: nat): (r: Option<(int, nat)>)
    requires i <= |s|
    ensures r.Some? ==> i < r.value.1 <= |s| && EndsNumber(s, r.value.1)
    decreases |s| - i
  {
    if i < |s| && IsSpace(s[i]) then ScanInt(s, i + 1) else ScanNumber(s, i)
  }

  /** An optional sign and then at least one digit, starting exactly at j. */
  function ScanNumber(s: string, j: nat): (r: Option<(int, nat)>)
    requires j <= |s|
    ensures r.Some? ==> j < r.value.1 <= |s| && EndsNumber(s, r.value.1)
    ensures r.None? <==> ScanDigits(s, if j < |s| && (s[j] == '-' || s[j] == '+') then j + 1 else j).None?
  {
    if j < |s| && s[j] == '-' then
      match ScanDigits(s, j + 1)
      case None => None
      case Some((v, e)) => Some((-v, e))
    else if j < |s| && s[j] == '+' then ScanDigits(s, j + 1)
    else ScanDigits(s, j)
  }

  /** At least one digit starting exactly at k: their value and the position after them. */
  function ScanDigits(s: string, k: nat): (r: Option<(int, nat)>)
    requires k <= |s|
    ensures r.None? <==> k == |s| || !IsDigit(s[k])
    ensures r.Some? ==> k < r.value.1 <= |s| && EndsNumber(s, r.value.1)
    ensures r.Some? ==> forall p :: k <= p < r.value.1 ==> IsDigit(s[p])
  {
    var e := DigitsEnd(s, k);
    if e == k then None else Some((DigitsValue(s[k..e]), e))
  }

  /** Every character of a rendering is a digit, except a leading minus sign. */
  lemma {:induction false} DecimalStringChars(n: int)
    ensures forall i :: 0 <= i < |DecimalString(n)| ==>
      IsDigit(DecimalString(n)[i]) || (i == 0 && DecimalString(n)[i] == '-')
    ensures DecimalString(n)[0] == '-' <==> n < 0
  {
    NatDigitsAreDigits(if n < 0 then -n else n);
  }

  lemma {:induction false} NatDigitsAreDigits(n: nat)
    ensures forall i :: 0 <= i < |NatDigits(n)| ==> IsDigit(NatDigits(n)[i])
    decreases n
  {
    if n >= 10 {
      NatDigitsAreDigits(n / 10);
    }
  }

  lemma {:induction false} NatDigitsValue(n: nat)
    ensures DigitsValue(NatDigits(n)) == n
    decreases n
  {
    if n >= 10 {
      var s := NatDigits(n);
      assert s[..|s| - 1] == NatDigits(n / 10);
      NatDigitsValue(n / 10);
    }
  }

  lemma {:induction false} ScanIntSkipsSpaces(s: string, i: nat, j: nat)
    requires i <= j <= |s|
    requires forall k :: i <= k < j ==> IsSpace(s[k])
    requires j == |s| || !IsSpace(s[j])
    ensures ScanInt(s, i) == ScanNumber(s, j)
    decreases j - i
  {
    if i < j {
      ScanIntSkipsSpaces(s, i + 1, j);
    }
  }

  lemma {:induction false} DigitsEndAt(s: string, i: nat, j: nat)
    requires i <= j <= |s|
    requires forall k :: i <= k < j ==> IsDigit(s[k])
    requires j == |s| || !IsDigit(s[j])
    ensures DigitsEnd(s, i) == j
    decreases j - i
  {
    if i < j {
      DigitsEndAt(s, i + 1, j);
    }
  }

  /** Reading back what DecimalString wrote: white space, then the rendering of n, then a
      character that is not a digit (or the end of the text) gives back n and the position
      just after the rendering. */
  lemma ScanIntReadsDecimal(s: string, i: nat, j: nat, n: int)
    requires i <= j && j + |DecimalString(n)| <= |s|
    requires forall k :: i <= k < j ==> IsSpace(s[k])
    requires s[j..j + |DecimalString(n)|] == DecimalString(n)
    requires j + |DecimalString(n)| == |s| || !IsDigit(s[j + |DecimalString(n)|])
    ensures ScanInt(s, i) == Some((n, j + |DecimalString(n)|))
  {
    ScanNumberReadsDecimal(s, j, n);
    ScanIntSkipsSpaces(s, i, j);
  }

  lemma ScanNumberReadsDecimal(s: string, j: nat, n: int)
    requires j + |DecimalString(n)| <= |s|
    requires s[j..j + |DecimalString(n)|] == DecimalString(n)
    requires j + |DecimalString(n)| == |s| || !IsDigit(s[j + |DecimalString(n)|])
    ensures !IsSpace(s[j])
    ensures ScanNumber(s, j) == Some((n, j + |DecimalString(n)|))
  {
    if n < 0 {
      ScanNumberReadsNegative(s, j, -n);
    } else {
      ScanNumberReadsNatural(s, j, n);
    }
  }

  lemma ScanNumberReadsNegative(s: string, j: nat, m: nat)
    requires m > 0
    requires j + 1 + |NatDigits(m)| <= |s|
    requires s[j..j + 1 + |NatDigits(m)|] == "-" + NatDigits(m)
    requires j + 1 + |NatDigits(m)| == |s| || !IsDigit(s[j + 1 + |NatDigits(m)|])
    ensures s[j] == '-'
    ensures ScanNumber(s, j) == Some((0 - m, j + 1 + |NatDigits(m)|))
  {
    var e := j + 1 + |NatDigits(m)|;
    assert s[j] == s[j..e][0];
    assert s[j + 1..e] == s[j..e][1..];
    DigitsReadBack(s, j + 1, m);
  }

  lemma ScanNumberReadsNatural(s: string, j: nat, m: nat)
    requires j + |NatDigits(m)| <= |s|
    requires s[j..j + |NatDigits(m)|] == NatDigits(m)
    requires j + |NatDigits(m)| == |s| || !IsDigit(s[j + |NatDigits(m)|])
    ensures IsDigit(s[j])
    ensures ScanNumber(s, j) == Some((m, j + |NatDigits(m)|))
  {
    NatDigitsAreDigits(m);
    assert s[j] == NatDigits(m)[0];
    DigitsReadBack(s, j, m);
  }

  /** The digits of m, followed by a non-digit or the end, read back as m. */
  lemma DigitsReadBack(s: string, k: nat, m: nat)
    requires k + |NatDigits(m)| <= |s|
    requires s[k..k + |NatDigits(m)|] == NatDigits(m)
    requires k + |NatDigits(m)| == |s| || !IsDigit(s[k + |NatDigits(m)|])
    ensures ScanDigits(s, k) == Some((m, k + |NatDigits(m)|))
  {
    var digits := NatDigits(m);
    NatDigitsAreDigits(m);
    forall p | k <= p < k + |digits| ensures IsDigit(s[p]) {
      assert s[p] == digits[p - k];
    }
    DigitsEndAt(s, k, k + |digits|);
    NatDigitsValue(m);
  }
}
