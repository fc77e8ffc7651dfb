/** The price string of the price tag: how a price is printed ("¥" followed by the
    amount with two decimals) and how an amount is read back out of any price
    string, by the unanchored pattern
        optional currency sign ('¥' or '$'), optional whitespace, then a captured
        group of digits, an optional '.', and more digits,
    whose captured group is parsed as a decimal number (0 when nothing matches).
    Digits are the ASCII digits 0-9 and the decimal separator is the point;
    other Unicode digits and culture-dependent separators are not modelled. */
module PriceText {
  import opened Format
  import opened Tween

  const Yen: char := '\U{00A5}'

  predicate IsCurrency(c: char) { c == Yen || c == '$' }

  predicate IsSpace(c: char)
  {
    c == ' ' || c == '\t' || c == '\n' || c == '\r' || c == '\U{000B}' || c == '\U{000C}'
  }

  function Pow10(m: nat): (r: nat)
    ensures r >= 1
  {
    if m == 0 then 1 else 10 * Pow10(m - 1)
  }

  /** The first digit at or after i, or |s| when there is none. */
  function FirstDigit(s: seq<char>, i: nat): (r: nat)
    requires i <= |s|
    ensures i <= r <= |s|
    ensures forall j :: i <= j < r ==> !IsDigit(s[j])
    ensures r < |s| ==> IsDigit(s[r])
    decreases |s| - i
  {
    if i == |s| || IsDigit(s[i]) then i else FirstDigit(s, i + 1)
  }

  /** Index just past the maximal run of digits starting at i. */
  function DigitRun(s: seq<char>, i: nat): (r: nat)
    requires i <= |s|
    ensures i <= r <= |s|
    ensures forall j :: i <= j < r ==> IsDigit(s[j])
    ensures r < |s| ==> !IsDigit(s[r])
    decreases |s| - i
  {
    if i < |s| && IsDigit(s[i]) then DigitRun(s, i + 1) else i
  }

  /** Index just past the whitespace run starting at i. */
  function SkipSpaces(s: seq<char>, i: nat): (r: nat)
    requires i <= |s|
    ensures i <= r <= |s|
    ensures forall j :: i <= j < r ==> IsSpace(s[j])
    decreases |s| - i
  {
    if i < |s| && IsSpace(s[i]) then SkipSpaces(s, i + 1) else i
  }

  /** Where the captured group would begin for a match attempt at i: after an
      optional currency sign and the whitespace that follows. Backtracking cannot
      find another start, since a shorter prefix leaves a sign or a space, never a
      digit, in front of the group. */
  function GroupStart(s: seq<char>, i: nat): (k: nat)
    requires i <= |s|
    ensures i <= k <= |s|
    ensures forall j :: i <= j < k ==> !IsDigit(s[j])
  {
    SkipSpaces(s, if i < |s| && IsCurrency(s[i]) then i + 1 else i)
  }

  predicate MatchesAt(s: seq<char>, i: nat)
    requires i <= |s|
  {
    var k := GroupStart(s, i);
    k < |s| && IsDigit(s[k])
  }

  /** The leftmost position at or after i where the pattern matches. */
  function LeftmostMatch(s: seq<char>, i: nat): (r: Option<nat>)
    requires i <= |s|
    ensures r.Some? ==> i <= r.value < |s| && MatchesAt(s, r.value)
    decreases |s| - i
  {
    if i == |s| then None
    else if MatchesAt(s, i) then Some(i)
    else LeftmostMatch(s, i + 1)
  }

  /** The decimal value of the captured group starting at digit index k:
      the digit run, then, if a '.' follows, the digit run after it as a fraction. */
  function GroupValue(s: seq<char>, k: nat): (r: real)
    requires k <= |s|
    ensures r >= 0.0
  {
    var e := DigitRun(s, k);
    var whole := DigitsValue(s[k..e]) as real;
    if e < |s| && s[e] == '.' then
      var f := DigitRun(s, e + 1);
      whole + DigitsValue(s[e + 1..f]) as real / Pow10(f - e - 1) as real
    else whole
  }

  /** The amount read out of a price string; 0 when the pattern does not match. */
  function PriceAmount(s: seq<char>): (r: real)
    ensures r >= 0.0
  {
    match LeftmostMatch(s, 0)
    case None => 0.0
    case Some(i) => GroupValue(s, GroupStart(s, i))
  }

  /** The printed price for an amount. */
  function PriceString(p: real): seq<char>
  {
    [Yen] + F2(p)
  }

  /** The leftmost match captures exactly from the first digit of the string, and
      there is a match exactly when the string holds a digit. */
  lemma {:induction false} LeftmostMatchIsFirstDigit(s: seq<char>, i: nat)
    requires i <= |s|
    ensures LeftmostMatch(s, i).None? <==> FirstDigit(s, i) == |s|
    ensures LeftmostMatch(s, i).Some? ==> GroupStart(s, LeftmostMatch(s, i).value) == FirstDigit(s, i)
    decreases |s| - i
  {
    if i < |s| {
      if MatchesAt(s, i) {
        FirstDigitUnique(s, i, GroupStart(s, i));
      } else {
        assert !IsDigit(s[i]);
        LeftmostMatchIsFirstDigit(s, i + 1);
        FirstDigitUnique(s, i, FirstDigit(s, i + 1));
      }
    }
  }

  /** FirstDigit is the only index with its two defining properties. */
  lemma FirstDigitUnique(s: seq<char>, i: nat, k: nat)
    requires i <= k <= |s|
    requires forall j :: i <= j < k ==> !IsDigit(s[j])
    requires k < |s| ==> IsDigit(s[k])
    ensures FirstDigit(s, i) == k
  {
  }

  /** A string without digits reads as 0. */
  lemma NoDigitIsZero(s: seq<char>)
    requires forall j :: 0 <= j < |s| ==> !IsDigit(s[j])
    ensures PriceAmount(s) == 0.0
  {
    LeftmostMatchIsFirstDigit(s, 0);
    FirstDigitUnique(s, 0, |s|);
  }

  /** The amount of a string is the value of the number starting at its first digit. */
  lemma AmountAtFirstDigit(s: seq<char>)
    requires FirstDigit(s, 0) < |s|
    ensures PriceAmount(s) == GroupValue(s, FirstDigit(s, 0))
  {
    LeftmostMatchIsFirstDigit(s, 0);
  }

  /** Splitting a string into a digit-free prefix, a digit run, and a rest that
      does not continue the run locates the run. */
  lemma RunAfterPrefix(a: seq<char>, d: seq<char>, b: seq<char>)
    requires forall j :: 0 <= j < |a| ==> !IsDigit(a[j])
    requires |d| >= 1 && AllDigits(d)
    requires b != [] ==> !IsDigit(b[0])
    ensures FirstDigit(a + d + b, 0) == |a|
    ensures DigitRun(a + d + b, |a|) == |a| + |d|
    ensures (a + d + b)[|a|..|a| + |d|] == d
  {
    var s := a + d + b;
    FirstDigitUnique(s, 0, |a|);
    DigitRunUnique(s, |a|, |a| + |d|);
  }

  lemma {:induction false} DigitRunUnique(s: seq<char>, i: nat, k: nat)
    requires i <= k <= |s|
    requires forall j :: i <= j < k ==> IsDigit(s[j])
    requires k < |s| ==> !IsDigit(s[k])
    ensures DigitRun(s, i) == k
    decreases k - i
  {
    if i < k {
      DigitRunUnique(s, i + 1, k);
    }
  }

  /** The first maximal run of digits is the amount when neither a digit nor a
      decimal point follows it. */
  lemma FirstRunIsAmount(a: seq<char>, n: nat, b: seq<char>)
    requires forall j :: 0 <= j < |a| ==> !IsDigit(a[j])
    requires b != [] ==> !IsDigit(b[0]) && b[0] != '.'
    ensures PriceAmount(a + NatToString(n) + b) == n as real
  {
    var d := NatToString(n);
    var s := a + d + b;
    RunAfterPrefix(a, d, b);
    AmountAtFirstDigit(s);
    NatToStringValue(n);
    if |a| + |d| < |s| {
      assert s[|a| + |d|] == b[0];
    }
  }

  /** The value of the two-digit string for r < 100. */
  lemma TwoDigitsValue(r: nat)
    requires r < 100
    ensures AllDigits([DigitChar(r / 10), DigitChar(r % 10)])
    ensures DigitsValue([DigitChar(r / 10), DigitChar(r % 10)]) == r
  {
    var f := [DigitChar(r / 10), DigitChar(r % 10)];
    assert DigitValue(f[0]) == r / 10 && DigitValue(f[1]) == r % 10;
    assert f[..1] == [f[0]];
    assert [f[0]][..0] == [];
    assert DigitsValue([f[0]]) == r / 10;
    assert DigitsValue(f) == DigitsValue(f[..1]) * 10 + DigitValue(f[1]);
  }

  /** The captured group of a number with a two-digit fraction, given where its
      runs end. */
  lemma GroupValueTwoDecimals(s: seq<char>, k: nat, e: nat)
    requires k <= e && e + 3 <= |s|
    requires DigitRun(s, k) == e && s[e] == '.' && DigitRun(s, e + 1) == e + 3
    ensures GroupValue(s, k) == DigitsValue(s[k..e]) as real + DigitsValue(s[e + 1..e + 3]) as real / 100.0
  {
    assert Pow10(2) == 100;
  }

  /** The captured group of "d.f" with a two-digit fraction f. */
  lemma GroupValueFixed(a: seq<char>, d: seq<char>, f: seq<char>)
    requires |d| >= 1 && AllDigits(d) && |f| == 2 && AllDigits(f)
    ensures GroupValue(a + d + ("." + f), |a|) == DigitsValue(d) as real + DigitsValue(f) as real / 100.0
  {
    var s := a + d + ("." + f);
    var e := |a| + |d|;
    assert |s| == e + 3;
    assert s[|a|..e] == d;
    assert s[e + 1..e + 3] == f;
    assert s[e] == '.';
    assert forall j :: |a| <= j < e ==> IsDigit(s[j]) by {
      forall j | |a| <= j < e ensures IsDigit(s[j]) {
        assert s[j] == d[j - |a|];
      }
    }
    DigitRunUnique(s, |a|, e);
    assert IsDigit(s[e + 1]) && IsDigit(s[e + 2]) by {
      assert s[e + 1] == f[0] && s[e + 2] == f[1];
    }
    DigitRunUnique(s, e + 1, e + 3);
    GroupValueTwoDecimals(s, |a|, e);
  }

  /** A digit-free prefix followed by "q.r1r2" reads as q + r/100. */
  lemma FixedPointAmount(a: seq<char>, q: nat, r: nat)
    requires forall j :: 0 <= j < |a| ==> !IsDigit(a[j])
    requires r < 100
    ensures PriceAmount(a + NatToString(q) + ("." + [DigitChar(r / 10), DigitChar(r % 10)]))
            == q as real + r as real / 100.0
  {
    var d := NatToString(q);
    var f := [DigitChar(r / 10), DigitChar(r % 10)];
    var s := a + d + ("." + f);
    RunAfterPrefix(a, d, "." + f);
    AmountAtFirstDigit(s);
    TwoDigitsValue(r);
    GroupValueFixed(a, d, f);
    NatToStringValue(q);
  }

  /** Round trip: the amount read back from a printed price is the price rounded
      to cents (of its magnitude, since the pattern skips a minus sign). For a
      non-negative price it is within half a cent of the price. */
  lemma PriceRoundTrip(p: real)
    ensures PriceAmount(PriceString(p)) == RoundHalfAway(Abs(p) * 100.0) as real / 100.0
    ensures p >= 0.0 ==> -0.005 < PriceAmount(PriceString(p)) - p <= 0.005
  {
    var c := RoundHalfAway(Abs(p) * 100.0);
    var q, r := c / 100, c % 100;
    assert c % 10 == r % 10;
    assert PriceString(p) == ([Yen] + Sign(p, c)) + NatToString(q) + ("." + [DigitChar(r / 10), DigitChar(r % 10)]);
    FixedPointAmount([Yen] + Sign(p, c), q, r);
    assert c as real == 100.0 * q as real + r as real;
  }
}
