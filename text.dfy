/** Decimal rendering of integers, as Python's `str(int)` produces it, and the
    matching parser. The inventory service builds its "not enough inventory"
    message with `str(qty)`; the round trip proved here is what makes the
    quantity recoverable from that message. */
module Text {

  datatype Option<T> = None | Some(value: T)

  predicate IsDigit(c: char) {
    '0' <= c <= '9'
  }

  predicate AllDigits(s: string) {
    forall i :: 0 <= i < |s| ==> IsDigit(s[i])
  }

  /** A character that may appear in a rendered integer. */
  predicate IsNumeral(c: char) {
    IsDigit(c) || c == '-'
  }

  function DigitChar(d: nat): (c: char)
    requires d < 10
    ensures IsDigit(c) && c as int - '0' as int == d
  {
    ('0' as int + d) as char
  }

  function DigitValue(c: char): (d: nat)
    requires IsDigit(c)
    ensures d < 10
  {
    c as int - '0' as int
  }

  /** Most significant digit first, no leading zeros, "0" for zero. */
  function NatToString(n: nat): (s: string)
    ensures |s| > 0 && AllDigits(s)
    ensures n < 10 <==> |s| == 1
  {
    if n < 10 then [DigitChar(n)] else NatToString(n / 10) + [DigitChar(n % 10)]
  }

  /** `str(n)` for a Python int: a leading '-' for negative values. */
  function IntToString(n: int): (s: string)
    ensures |s| > 0
    ensures forall i :: 0 <= i < |s| ==> IsNumeral(s[i])
    ensures s[0] == '-' <==> n < 0
  {
    if n < 0 then "-" + NatToString(-n) else NatToString(n)
  }

  function ParseNat(s: string): nat
    requires AllDigits(s)
  {
    if s == [] then 0 else 10 * ParseNat(s[..|s| - 1]) + DigitValue(s[|s| - 1])
  }

  /** Reads an optional '-' followed by at least one digit; anything else is None. */
  function ParseInt(s: string): Option<int> {
    if |s| > 1 && s[0] == '-' && AllDigits(s[1..]) then Some(0 - ParseNat(s[1..]) as int)
    else if |s| > 0 && AllDigits(s) then Some(ParseNat(s))
    else None
  }

  lemma {:induction false} ParseNatToString(n: nat)
    ensures ParseNat(NatToString(n)) == n
  {
    if n >= 10 {
      var s := NatToString(n);
      assert s[..|s| - 1] == NatToString(n / 10);
      ParseNatToString(n / 10);
    }
  }

  lemma IntToStringRoundTrip(n: int)
    ensures ParseInt(IntToString(n)) == Some(n)
  {
    if n < 0 {
      var t := NatToString(-n);
      var s := "-" + t;
      assert IntToString(n) == s;
      assert s[1..] == t;
      ParseNatToString(-n);
      assert ParseInt(s) == Some(0 - ParseNat(t) as int);
    } else {
      ParseNatToString(n);
    }
  }

  /** Length of the longest prefix of s made of numeral characters. */
  function NumeralSpan(s: string): (k: nat)
    ensures k <= |s|
    ensures forall i :: 0 <= i < k ==> IsNumeral(s[i])
    ensures k < |s| ==> !IsNumeral(s[k])
  {
    if s == [] || !IsNumeral(s[0]) then 0 else 1 + NumeralSpan(s[1..])
  }

  lemma {:induction false} NumeralSpanOfConcat(t: string, rest: string)
    requires forall i :: 0 <= i < |t| ==> IsNumeral(t[i])
    requires rest != [] && !IsNumeral(rest[0])
    ensures NumeralSpan(t + rest) == |t|
  {
    if t != [] {
      assert (t + rest)[1..] == t[1..] + rest;
      NumeralSpanOfConcat(t[1..], rest);
    }
  }
}
