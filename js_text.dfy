/**
 * The JavaScript string and number conversions the pages rely on:
 * `String(n)` / `n.toString()`, `Number(s)`, `s.padStart(2, '0')`,
 * `s.slice(i, j)`, `s.replace(/[^0-9]/g, '')` and the relational
 * comparison of two strings.
 */
module JsText {
  import opened Lists

  /** A JavaScript number obtained from `Number(s)`: an integer, or NaN. */
  datatype JsNumber = Int(value: int) | NaN

  predicate IsDigit(c: char) {
    '0' <= c <= '9'
  }

  predicate AllDigits(s: string) {
    forall i :: 0 <= i < |s| ==> IsDigit(s[i])
  }

  function DigitChar(d: nat): (c: char)
    requires d < 10
    ensures IsDigit(c) && c as int == 48 + d
  {
    (48 + d) as char
  }

  function DigitValue(c: char): (d: nat)
    requires IsDigit(c)
    ensures d < 10 && DigitChar(d) == c
  {
    c as int - 48
  }

  /** `String(n)` for a non-negative integer: its decimal digits, without leading zeros. */
  function NatToString(n: nat): (s: string)
    ensures |s| >= 1 && AllDigits(s)
    ensures (s[0] == '0') == (n == 0)
    decreases n
  {
    if n < 10 then [DigitChar(n)] else NatToString(n / 10) + [DigitChar(n % 10)]
  }

  /** `n.toString()` for an integer: a minus sign for negative numbers. */
  function IntToString(i: int): (s: string)
    ensures |s| >= 1 && (s[0] == '-' <==> i < 0)
    ensures i >= 0 ==> AllDigits(s) && DigitsValue(s) == i
    ensures i >= 0 ==> (s[0] == '0' <==> i == 0)
    ensures i < 0 ==> |s| >= 2 && s[1] != '0' && AllDigits(s[1..]) && DigitsValue(s[1..]) == -i
  {
    if i < 0 then
      var digits := NatToString(-i);
      DigitsValueOfNatToString(-i);
      assert ("-" + digits)[1..] == digits;
      "-" + digits
    else
      DigitsValueOfNatToString(i);
      NatToString(i)
  }

  /** The value of a string of decimal digits (leading zeros allowed). */
  function DigitsValue(s: string): nat
    requires AllDigits(s)
    decreases |s|
  {
    if s == [] then 0 else DigitsValue(s[..|s| - 1]) * 10 + DigitValue(s[|s| - 1])
  }

  /** Reading back the decimal string of `n` gives `n`. */
  lemma {:induction false} DigitsValueOfNatToString(n: nat)
    ensures DigitsValue(NatToString(n)) == n
    decreases n
  {
    if n >= 10 {
      var s := NatToString(n);
      assert s[..|s| - 1] == NatToString(n / 10);
      DigitsValueOfNatToString(n / 10);
    }
  }

  /** Distinct integers print differently. */
  lemma IntToStringInjective(a: int, b: int)
    ensures IntToString(a) == IntToString(b) ==> a == b
  {
    if IntToString(a) == IntToString(b) && a < 0 && b < 0 {
      var sa, sb := NatToString(-a), NatToString(-b);
      assert IntToString(a) == "-" + sa && IntToString(b) == "-" + sb;
      assert sa == IntToString(a)[1..] && sb == IntToString(b)[1..];
      DigitsValueOfNatToString(-a);
      DigitsValueOfNatToString(-b);
    }
  }

  /**
   * `Number(s)`: the empty string is 0, a string of decimal digits is its
   * value, anything else is NaN.
   */
  function ParseNumber(s: string): (r: JsNumber)
    ensures r == NaN <==> s != [] && !AllDigits(s)
    ensures r.Int? ==> r.value >= 0
    ensures r == Int(0) <==> s == [] || (AllDigits(s) && DigitsValue(s) == 0)
    ensures AllDigits(s) ==> r == Int(DigitsValue(s))
  {
    if s == [] then Int(0)
    else if AllDigits(s) then Int(DigitsValue(s))
    else NaN
  }

  /** `s.padStart(2, '0')`: `s` itself when it has two characters or more, else `s` behind leading zeros. */
  function PadStart2(s: string): (r: string)
    ensures |r| == if |s| >= 2 then |s| else 2
    ensures r[|r| - |s|..] == s
    ensures forall i :: 0 <= i < |r| - |s| ==> r[i] == '0'
  {
    if |s| >= 2 then s else if |s| == 1 then "0" + s else "00"
  }

  /** A two-digit number prints, padded, as its tens digit then its units digit. */
  lemma {:induction false} PadStart2OfNatToString(n: nat)
    requires n < 100
    ensures PadStart2(NatToString(n)) == [DigitChar(n / 10), DigitChar(n % 10)]
  {
    if n >= 10 {
      assert NatToString(n / 10) == [DigitChar(n / 10)];
    }
  }

  /** Splitting a number written as tens and units back into the two, for the padding proofs below. */
  lemma DivModTen(tens: nat, units: nat)
    requires units < 10
    ensures (tens * 10 + units) / 10 == tens && (tens * 10 + units) % 10 == units
  {
  }

  /** A two-digit string survives `String(Number(s)).padStart(2, '0')` unchanged. */
  lemma {:induction false} PadStart2RoundTrip(s: string)
    requires |s| == 2 && AllDigits(s)
    ensures DigitsValue(s) < 100
    ensures PadStart2(NatToString(DigitsValue(s))) == s
  {
    var n := DigitsValue(s);
    var head := s[..1];
    assert s[..|s| - 1] == head && head[..0] == [];
    assert DigitsValue(head) == DigitValue(s[0]);
    var tens, units := DigitValue(s[0]), DigitValue(s[1]);
    assert n == tens * 10 + units;
    DivModTen(tens, units);
    PadStart2OfNatToString(n);
    assert [DigitChar(tens), DigitChar(units)] == s;
  }

  /** Two digits read back as tens and units. */
  lemma DigitsValueOfPair(tens: nat, units: nat)
    requires tens < 10 && units < 10
    ensures AllDigits([DigitChar(tens), DigitChar(units)])
    ensures DigitsValue([DigitChar(tens), DigitChar(units)]) == tens * 10 + units
  {
    var s := [DigitChar(tens), DigitChar(units)];
    assert s[..1][..0] == [] && s[..|s| - 1] == s[..1];
    assert DigitsValue(s[..1]) == tens;
  }

  /** A number below 100 prints, padded, as two digits that read back as the number. */
  lemma PadStart2Value(n: nat)
    requires n < 100
    ensures |PadStart2(NatToString(n))| == 2 && AllDigits(PadStart2(NatToString(n)))
    ensures DigitsValue(PadStart2(NatToString(n))) == n
  {
    PadStart2OfNatToString(n);
    DigitsValueOfPair(n / 10, n % 10);
  }

  function Min(a: nat, b: nat): nat {
    if a <= b then a else b
  }

  /** `s.slice(lo, hi)` for non-negative bounds: both bounds are clamped to the length. */
  function Slice(s: string, lo: nat, hi: nat): (r: string)
    requires lo <= hi
    ensures |r| == Min(hi, |s|) - Min(lo, |s|)
    ensures forall k :: 0 <= k < |r| ==> r[k] == s[lo + k]
  {
    s[Min(lo, |s|)..Min(hi, |s|)]
  }

  /** `s.replace(/[^0-9]/g, '')`: the digits of `s`, in order. */
  function OnlyDigits(s: string): (r: string)
    ensures AllDigits(r)
  {
    Filter(s, IsDigit)
  }

  /** A string that is all digits is left as it is. */
  lemma OnlyDigitsOfDigits(s: string)
    requires AllDigits(s)
    ensures OnlyDigits(s) == s
  {
    FilterKeepsAll(s, IsDigit);
  }

  /** A string without digits is removed entirely. */
  lemma OnlyDigitsOfNonDigits(s: string)
    requires forall i :: 0 <= i < |s| ==> !IsDigit(s[i])
    ensures OnlyDigits(s) == ""
  {
    FilterKeepsNone(s, IsDigit);
  }

  /** `a <= b` on JavaScript strings: lexicographic order of the characters. */
  predicate LexLe(a: string, b: string)
    ensures a <= b ==> LexLe(a, b)
    ensures LexLe(a, b) && a != [] ==> b != [] && a[0] <= b[0]
    decreases |a|
  {
    a == [] || (b != [] && (a[0] < b[0] || (a[0] == b[0] && LexLe(a[1..], b[1..]))))
  }

  lemma {:induction false} LexLeReflexive(a: string)
    ensures LexLe(a, a)
    decreases |a|
  {
    if a != [] {
      LexLeReflexive(a[1..]);
    }
  }

  /** A common prefix does not decide the comparison: the rest does. */
  lemma {:induction false} LexLeCommonPrefix(p: string, a: string, b: string)
    ensures LexLe(p + a, p + b) <==> LexLe(a, b)
    decreases |p|
  {
    if p == [] {
      assert p + a == a && p + b == b;
    } else {
      assert (p + a)[1..] == p[1..] + a && (p + b)[1..] == p[1..] + b;
      LexLeCommonPrefix(p[1..], a, b);
    }
  }

  lemma {:induction false} LexLeTransitive(a: string, b: string, c: string)
    requires LexLe(a, b) && LexLe(b, c)
    ensures LexLe(a, c)
    decreases |a|
  {
    if a != [] && a[0] == b[0] && b[0] == c[0] {
      LexLeTransitive(a[1..], b[1..], c[1..]);
    }
  }
}
