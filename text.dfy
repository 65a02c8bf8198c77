/** Decimal formatting of integers as JavaScript's `String(n)` does it,
    `padStart`, and the parsing that undoes the formatting. */
module Text {

  import opened Rows

  predicate IsDigit(c: char) {
    '0' <= c <= '9'
  }

  predicate AllDigits(s: string) {
    forall i :: 0 <= i < |s| ==> IsDigit(s[i])
  }

  function DigitChar(d: nat): (c: char)
    requires d < 10
    ensures IsDigit(c)
  {
    (48 + d) as char
  }

  function DigitValue(c: char): (d: nat)
    requires IsDigit(c)
    ensures d < 10 && DigitChar(d) == c
  {
    c as int - 48
  }

  /** The decimal digits of `n`, without leading zeros. */
  function NatToString(n: nat): (s: string)
    ensures |s| >= 1 && AllDigits(s)
    ensures s[0] == '0' ==> n == 0
  {
    if n < 10 then [DigitChar(n)] else NatToString(n / 10) + [DigitChar(n % 10)]
  }

  /** `String(i)` for an integer: a minus sign before the digits of a negative number. */
  function IntToString(i: int): (s: string)
    ensures |s| >= 1
    ensures i < 0 <==> s[0] == '-'
  {
    if i < 0 then "-" + NatToString(-i) else NatToString(i)
  }

  /** The value of a string of decimal digits (the empty string reads as 0). */
  function ParseNat(s: string): nat
    requires AllDigits(s)
  {
    if s == [] then 0 else 10 * ParseNat(s[..|s| - 1]) + DigitValue(s[|s| - 1])
  }

  /** Reads back what `IntToString` writes; None for anything else. */
  function ParseInt(s: string): Option<int>
  {
    if |s| >= 2 && s[0] == '-' && AllDigits(s[1..]) then Some(0 - ParseNat(s[1..]))
    else if |s| >= 1 && AllDigits(s) then Some(ParseNat(s))
    else None
  }

  lemma {:induction false} ParseNatToString(n: nat)
    ensures ParseNat(NatToString(n)) == n
  {
    if n >= 10 {
      var s := NatToString(n);
      assert s[..|s| - 1] == NatToString(n / 10);
      ParseNatToString(n / 10);
    }
  }

  /** Formatting an integer and parsing it back gives the integer. */
  lemma IntToStringRoundTrip(i: int)
    ensures ParseInt(IntToString(i)) == Some(i)
  {
    var s := IntToString(i);
    if i < 0 {
      assert s[1..] == NatToString(-i);
      ParseNatToString(-i);
    } else {
      ParseNatToString(i);
    }
  }

  /** Distinct integers print differently. */
  lemma IntToStringInjective(i: int, j: int)
    requires IntToString(i) == IntToString(j)
    ensures i == j
  {
    IntToStringRoundTrip(i);
    IntToStringRoundTrip(j);
  }

  /** The decimal text of 2024, the year the examples use. */
  lemma Decimal2024()
    ensures IntToString(2024) == "2024"
  {
    assert DigitChar(2) == '2' && DigitChar(0) == '0' && DigitChar(4) == '4';
    assert NatToString(2) == "2";
    assert NatToString(20) == NatToString(2) + "0";
    assert NatToString(202) == NatToString(20) + "2";
    assert NatToString(2024) == NatToString(202) + "4";
  }

  /** JavaScript's `s.padStart(width, c)` for a one-character pad string. */
  function PadStart(s: string, width: nat, c: char): (r: string)
    ensures |r| == if |s| < width then width else |s|
    ensures r[|r| - |s|..] == s
    ensures forall k :: 0 <= k < |r| - |s| ==> r[k] == c
  {
    if |s| >= width then s else seq(width - |s|, _ => c) + s
  }

  /** A string of '0's reads as 0. */
  lemma {:induction false} ParseNatZeros(z: string)
    requires forall k :: 0 <= k < |z| ==> z[k] == '0'
    ensures AllDigits(z) && ParseNat(z) == 0
  {
    if z != [] {
      ParseNatZeros(z[..|z| - 1]);
    }
  }

  /** Leading '0's do not change the value of a digit string. */
  lemma {:induction false} ParseNatLeadingZeros(z: string, t: string)
    requires forall k :: 0 <= k < |z| ==> z[k] == '0'
    requires AllDigits(t)
    ensures AllDigits(z + t) && ParseNat(z + t) == ParseNat(t)
    decreases |t|
  {
    if t == [] {
      assert z + t == z;
      ParseNatZeros(z);
    } else {
      var t' := t[..|t| - 1];
      assert (z + t)[..|z + t| - 1] == z + t';
      ParseNatLeadingZeros(z, t');
    }
  }

  /** A non-negative number padded with '0's to any width reads back as itself. */
  lemma PaddedReadsBack(n: nat, width: nat)
    ensures AllDigits(PadStart(IntToString(n), width, '0'))
    ensures ParseNat(PadStart(IntToString(n), width, '0')) == n
  {
    var t := IntToString(n);
    var r := PadStart(t, width, '0');
    ParseNatToString(n);
    assert r == r[..|r| - |t|] + t;
    ParseNatLeadingZeros(r[..|r| - |t|], t);
  }

  /** Numbers up to 9999 have at most four digits. */
  lemma AtMostFourDigits(n: nat)
    requires n <= 9999
    ensures |NatToString(n)| <= 4
  {
    var n1 := n / 10;
    var n2 := n1 / 10;
    var n3 := n2 / 10;
    assert n3 < 10;
    assert |NatToString(n2)| <= 2;
    assert |NatToString(n1)| <= 3;
  }

  /** A number below 100 padded to two characters is its two decimal digits. */
  lemma TwoDigits(m: int)
    requires 0 <= m <= 99
    ensures PadStart(IntToString(m), 2, '0') == [DigitChar(m / 10), DigitChar(m % 10)]
  {
    if m >= 10 {
      assert NatToString(m) == NatToString(m / 10) + [DigitChar(m % 10)];
    } else {
      assert IntToString(m) == [DigitChar(m)];
      assert PadStart(IntToString(m), 2, '0') == "0" + [DigitChar(m)];
    }
  }

  /** Two numbers below 100 with the same two digits are equal. */
  lemma TwoDigitsInjective(m: int, n: int)
    requires 0 <= m <= 99 && 0 <= n <= 99
    requires [DigitChar(m / 10), DigitChar(m % 10)] == [DigitChar(n / 10), DigitChar(n % 10)]
    ensures m == n
  {
    assert DigitValue(DigitChar(m / 10)) == m / 10 && DigitValue(DigitChar(n / 10)) == n / 10;
    assert DigitValue(DigitChar(m % 10)) == m % 10 && DigitValue(DigitChar(n % 10)) == n % 10;
  }
}
