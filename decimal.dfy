/** Decimal digit strings: how a number is written into text (`${n}`), how a digit string is read
    back, and how JavaScript compares strings. Used for SQL placeholders and migration file names. */
module Decimal {

  predicate IsDigit(c: char) { '0' <= c <= '9' }

  predicate AllDigits(s: string) {
    forall i :: 0 <= i < |s| ==> IsDigit(s[i])
  }

  lemma AllDigitsConcat(a: string, b: string)
    requires AllDigits(a) && AllDigits(b)
    ensures AllDigits(a + b)
  {
    forall i | 0 <= i < |a + b| ensures IsDigit((a + b)[i]) {
      if i < |a| {
        assert (a + b)[i] == a[i];
      } else {
        assert (a + b)[i] == b[i - |a|];
      }
    }
  }

  function DigitChar(d: nat): (c: char)
    requires d < 10
    ensures IsDigit(c) && c as int - '0' as int == d
  {
    ('0' as int + d) as char
  }

  /** The number a digit string denotes. */
  function DigitsValue(s: string): nat
    requires AllDigits(s)
  {
    if s == [] then 0 else DigitsValue(s[..|s| - 1]) * 10 + (s[|s| - 1] as int - '0' as int)
  }

  /** `${n}` for a non-negative integer: its decimal digits, without leading zeros. */
  function NatToString(n: nat): (s: string)
    ensures |s| >= 1 && AllDigits(s)
    ensures s[0] != '0' || s == "0"
    decreases n
  {
    if n < 10 then [DigitChar(n)] else NatToString(n / 10) + [DigitChar(n % 10)]
  }

  /** Reading the digits back gives the number. */
  lemma {:induction false} NatToStringRoundTrip(n: nat)
    ensures DigitsValue(NatToString(n)) == n
    decreases n
  {
    var s := NatToString(n);
    if n >= 10 {
      NatToStringRoundTrip(n / 10);
      assert s[..|s| - 1] == NatToString(n / 10);
    }
  }

  /** Two numbers are written alike only when they are equal. */
  lemma NatToStringInjective(a: nat, b: nat)
    requires NatToString(a) == NatToString(b)
    ensures a == b
  {
    NatToStringRoundTrip(a);
    NatToStringRoundTrip(b);
  }

  /** `a < b` on JavaScript strings (code-unit order). */
  predicate LexLess(a: string, b: string) {
    if a == [] then b != []
    else b != [] && (a[0] < b[0] || (a[0] == b[0] && LexLess(a[1..], b[1..])))
  }

  /** A common prefix does not change the comparison. */
  lemma {:induction false} LexLessCommonPrefix(p: string, x: string, y: string)
    requires LexLess(x, y)
    ensures LexLess(p + x, p + y)
    decreases |p|
  {
    if p != [] {
      LexLessCommonPrefix(p[1..], x, y);
      var px, py := p + x, p + y;
      assert px != [] && py != [] && px[0] == py[0];
      assert px[1..] == p[1..] + x;
      assert py[1..] == p[1..] + y;
      assert LexLess(px[1..], py[1..]);
    } else {
      assert p + x == x && p + y == y;
    }
  }

  /** Between strings of equal length, whatever follows does not change the comparison. */
  lemma {:induction false} LexLessExtend(x: string, y: string, p: string, q: string)
    requires |x| == |y| && LexLess(x, y)
    ensures LexLess(x + p, y + q)
    decreases |x|
  {
    assert (x + p)[0] == x[0] && (y + q)[0] == y[0];
    if x[0] == y[0] && !(x[0] < y[0]) {
      LexLessExtend(x[1..], y[1..], p, q);
      assert (x + p)[1..] == x[1..] + p;
      assert (y + q)[1..] == y[1..] + q;
    }
  }

  /** Digit strings of one width with one value are the same string. */
  lemma {:induction false} DigitsValueInjective(x: string, y: string)
    requires AllDigits(x) && AllDigits(y) && |x| == |y|
    requires DigitsValue(x) == DigitsValue(y)
    ensures x == y
    decreases |x|
  {
    if x != [] {
      var x', y' := x[..|x| - 1], y[..|y| - 1];
      var d, e := x[|x| - 1] as int - '0' as int, y[|y| - 1] as int - '0' as int;
      var a, b := DigitsValue(x'), DigitsValue(y');
      assert a * 10 + d == b * 10 + e;
      assert a == b && d == e;
      DigitsValueInjective(x', y');
      assert x == x' + [x[|x| - 1]] && y == y' + [y[|y| - 1]];
    }
  }

  /** Between digit strings of one width, the smaller number is the lexicographically smaller
      string: fixed-width numbers sort as text the way they sort as numbers. */
  lemma {:induction false} EqualWidthDigitsOrder(x: string, y: string)
    requires AllDigits(x) && AllDigits(y) && |x| == |y|
    requires DigitsValue(x) < DigitsValue(y)
    ensures LexLess(x, y)
    decreases |x|
  {
    var x', y' := x[..|x| - 1], y[..|y| - 1];
    var d, e := x[|x| - 1] as int - '0' as int, y[|y| - 1] as int - '0' as int;
    var a, b := DigitsValue(x'), DigitsValue(y');
    assert x == x' + [x[|x| - 1]] && y == y' + [y[|y| - 1]];
    if a < b {
      EqualWidthDigitsOrder(x', y');
      LexLessExtend(x', y', [x[|x| - 1]], [y[|y| - 1]]);
    } else if a == b {
      DigitsValueInjective(x', y');
      assert d < e;
      LexLessCommonPrefix(x', [x[|x| - 1]], [y[|y| - 1]]);
    } else {
      assert false;
    }
  }
}
