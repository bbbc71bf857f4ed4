/** Decimal text of integers, as Python's `str(int)` and f-strings print them
    (used for `nodes_count` and for the millisecond timestamps), with the
    parser that reads them back. */
module Decimal {

  predicate IsDigit(c: char) { '0' <= c <= '9' }

  function DigitChar(n: nat): (c: char)
    requires n < 10
    ensures IsDigit(c)
  {
    "0123456789"[n]
  }

  function DigitValue(c: char): (n: nat)
    requires IsDigit(c)
    ensures n < 10 && DigitChar(n) == c
  {
    (c as int - '0' as int) as nat
  }

  /** `str(n)` for a natural number: digits only, no leading zero. */
  function NatToString(n: nat): (s: string)
    ensures |s| > 0
    ensures forall i :: 0 <= i < |s| ==> IsDigit(s[i])
    ensures s[0] == '0' ==> s == "0"
  {
    if n < 10 then [DigitChar(n)] else NatToString(n / 10) + [DigitChar(n % 10)]
  }

  /** `str(i)`: a minus sign before the digits of a negative number. */
  function IntToString(i: int): (s: string)
    ensures |s| > 0 && (s[0] == '-' ==> |s| > 1)
    ensures forall k :: 0 <= k < |s| ==> IsDigit(s[k]) || (k == 0 && s[k] == '-')
  {
    if i < 0 then "-" + NatToString(-i) else NatToString(i)
  }

  function ParseNat(s: string): nat
    requires forall i :: 0 <= i < |s| ==> IsDigit(s[i])
  {
    if |s| == 0 then 0 else ParseNat(s[..|s| - 1]) * 10 + DigitValue(s[|s| - 1])
  }

  /** `int(s)` for the texts `IntToString` produces. */
  function ParseInt(s: string): int
    requires |s| > 0
    requires forall k :: 0 <= k < |s| ==> IsDigit(s[k]) || (k == 0 && s[k] == '-')
    requires s[0] == '-' ==> |s| > 1
  {
    if s[0] == '-' then -(ParseNat(s[1..]) as int) else ParseNat(s)
  }

  lemma {:induction false} ParseNatToString(n: nat)
    ensures ParseNat(NatToString(n)) == n
  {
    var s := NatToString(n);
    if n >= 10 {
      ParseNatToString(n / 10);
      assert s == NatToString(n / 10) + [DigitChar(n % 10)];
      assert s[..|s| - 1] == NatToString(n / 10);
      assert DigitValue(s[|s| - 1]) == n % 10;
    }
  }

  /** Reading back the printed text gives the number: printing loses nothing,
      so two different timestamps never print alike. */
  lemma IntToStringInverse(i: int)
    ensures ParseInt(IntToString(i)) == i
  {
    if i < 0 {
      var n: nat := -i;
      var t := NatToString(n);
      assert IntToString(i) == "-" + t;
      ParseNatToString(n);
      ParseIntSigned(t);
      assert ParseInt("-" + t) == -(n as int);
    } else {
      ParseIntUnsigned(NatToString(i));
      ParseNatToString(i);
    }
  }

  lemma ParseIntSigned(t: string)
    requires |t| > 0 && forall k :: 0 <= k < |t| ==> IsDigit(t[k])
    ensures ParseInt("-" + t) == -(ParseNat(t) as int)
  {
    assert ("-" + t)[1..] == t;
  }

  lemma ParseIntUnsigned(t: string)
    requires |t| > 0 && forall k :: 0 <= k < |t| ==> IsDigit(t[k])
    ensures ParseInt(t) == ParseNat(t)
  {
  }

  lemma IntToStringInjective(i: int, j: int)
    requires IntToString(i) == IntToString(j)
    ensures i == j
  {
    IntToStringInverse(i);
    IntToStringInverse(j);
  }
}
