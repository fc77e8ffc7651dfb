/** The numeric formats the components print: plain decimal integers, the
    zero-padded "D3" counter used in object names, and fixed-point "F0"/"F2"
    renderings of a real. Fixed-point rounding is half away from zero on the exact
    value; a minus sign is printed only when the rounded magnitude is non-zero. */
module Format {

  predicate IsDigit(c: char) { '0' <= c <= '9' }

  predicate AllDigits(s: seq<char>) { forall i :: 0 <= i < |s| ==> IsDigit(s[i]) }

  function DigitChar(d: nat): (c: char)
    requires d < 10
    ensures IsDigit(c)
  {
    ('0' as int + d) as char
  }

  function DigitValue(c: char): (d: nat)
    requires IsDigit(c)
    ensures d < 10
  {
    c as int - '0' as int
  }

  /** Decimal rendering of a natural number, most significant digit first, with no
      leading zero except for zero itself. */
  function NatToString(n: nat): (s: seq<char>)
    ensures 1 <= |s| && AllDigits(s)
    ensures |s| > 1 ==> s[0] != '0'
    decreases n
  {
    if n < 10 then [DigitChar(n)] else NatToString(n / 10) + [DigitChar(n % 10)]
  }

  /** The value of a run of decimal digits (leading zeros allowed). */
  function DigitsValue(s: seq<char>): nat
    requires AllDigits(s)
  {
    if s == [] then 0 else DigitsValue(s[..|s| - 1]) * 10 + DigitValue(s[|s| - 1])
  }

  /** Reading back the decimal rendering gives the number. */
  lemma {:induction false} NatToStringValue(n: nat)
    ensures DigitsValue(NatToString(n)) == n
    decreases n
  {
    if n >= 10 {
      NatToStringValue(n / 10);
      var s := NatToString(n);
      assert s[..|s| - 1] == NatToString(n / 10);
    }
  }

  /** Distinct numbers have distinct renderings. */
  lemma NatToStringInjective(a: nat, b: nat)
    requires NatToString(a) == NatToString(b)
    ensures a == b
  {
    NatToStringValue(a);
    NatToStringValue(b);
  }

  function Zeros(k: nat): (s: seq<char>)
    ensures |s| == k && AllDigits(s)
    ensures forall i :: 0 <= i < k ==> s[i] == '0'
  {
    if k == 0 then [] else ['0'] + Zeros(k - 1)
  }

  lemma {:induction false} ZerosValue(k: nat, s: seq<char>)
    requires AllDigits(s)
    ensures DigitsValue(Zeros(k) + s) == DigitsValue(s)
    decreases |s|
  {
    if s == [] {
      assert Zeros(k) + s == Zeros(k);
      ZerosOnlyValue(k);
    } else {
      var t := Zeros(k) + s;
      assert t[..|t| - 1] == Zeros(k) + s[..|s| - 1];
      ZerosValue(k, s[..|s| - 1]);
    }
  }

  lemma {:induction false} ZerosOnlyValue(k: nat)
    ensures DigitsValue(Zeros(k)) == 0
  {
    if k > 0 {
      var z := Zeros(k);
      assert z[..k - 1] == Zeros(k - 1);
      ZerosOnlyValue(k - 1);
    }
  }

  /** The "D3" format: the decimal rendering left-padded with zeros to at least
      three digits. */
  function D3(n: nat): (s: seq<char>)
    ensures AllDigits(s)
  {
    var digits := NatToString(n);
    if |digits| < 3 then Zeros(3 - |digits|) + digits else digits
  }

  /** D3 is at least three digits long, exactly three below one thousand, and
      reads back as the number. */
  lemma D3Value(n: nat)
    ensures |D3(n)| >= 3
    ensures n < 1000 ==> |D3(n)| == 3
    ensures DigitsValue(D3(n)) == n
  {
    NatToStringValue(n);
    var digits := NatToString(n);
    if |digits| < 3 {
      ZerosValue(3 - |digits|, digits);
    }
    if n < 1000 {
      NatToStringShort(n);
    }
  }

  lemma {:induction false} NatToStringShort(n: nat)
    requires n < 1000
    ensures |NatToString(n)| <= 3
  {
    if n >= 10 {
      NatToStringShort(n / 10);
      if n >= 100 {
        assert n / 10 >= 10;
      } else {
        assert n / 10 < 10;
      }
    }
  }

  /** Names built from a fixed prefix and a D3 counter identify the counter. */
  lemma CounterNameInjective(prefix: seq<char>, a: nat, b: nat)
    requires prefix + D3(a) == prefix + D3(b)
    ensures a == b
  {
    assert D3(a) == (prefix + D3(a))[|prefix|..];
    assert D3(b) == (prefix + D3(b))[|prefix|..];
    D3Value(a);
    D3Value(b);
  }

  /** Rounds a magnitude (a non-negative real) to the nearest natural, halves
      upwards; applied to `Abs(x)` and signed afterwards, this is rounding
      halves away from zero. */
  function RoundHalfAway(x: real): (n: nat)
    requires x >= 0.0
    ensures n as real <= x + 0.5 < n as real + 1.0
  {
    (x + 0.5).Floor
  }

  function Abs(x: real): real { if x < 0.0 then -x else x }

  function Sign(x: real, rounded: nat): seq<char>
  {
    if x < 0.0 && rounded != 0 then "-" else ""
  }

  /** The "F0" format: no decimals. */
  function F0(x: real): seq<char>
  {
    var m := RoundHalfAway(Abs(x));
    Sign(x, m) + NatToString(m)
  }

  /** The "F2" format: always two decimals. */
  function F2(x: real): seq<char>
  {
    var c := RoundHalfAway(Abs(x) * 100.0);
    Sign(x, c) + NatToString(c / 100) + "." + [DigitChar(c % 100 / 10), DigitChar(c % 10)]
  }

  /** A whole number prints under F0 as its plain decimal rendering, with a minus
      sign when negative. */
  lemma F0OfInteger(n: int)
    ensures n >= 0 ==> F0(n as real) == NatToString(n)
    ensures n < 0 ==> F0(n as real) == "-" + NatToString(-n)
  {
    var m := RoundHalfAway(Abs(n as real));
    assert m == if n >= 0 then n else -n;
  }
}
