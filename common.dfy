/**
 * Small shared vocabulary: an optional value and the decimal rendering of
 * integers that JavaScript's `String(n)` / template literals produce for
 * integral numbers (used for room ids, bot names, scores and replay times).
 */
module Common {

  datatype Option<T> = None | Some(value: T)

  /** The character of a decimal digit. */
  function DigitChar(d: nat): (c: char)
    requires d < 10
    ensures '0' <= c <= '9'
    ensures c as int - '0' as int == d
  {
    (d + '0' as int) as char
  }

  /** The value of a decimal digit character. */
  function DigitValue(c: char): (d: nat)
    requires IsDigit(c)
    ensures d < 10 && DigitChar(d) == c
  {
    c as int - '0' as int
  }

  predicate IsDigit(c: char) { '0' <= c <= '9' }

  /** Canonical decimal rendering of a natural number (no leading zero). */
  function Decimal(n: nat): (s: string)
    ensures |s| >= 1
    ensures forall i :: 0 <= i < |s| ==> IsDigit(s[i])
    ensures n > 0 ==> s[0] != '0'
    ensures n < 10 <==> |s| == 1
  {
    if n < 10 then [DigitChar(n)] else Decimal(n / 10) + [DigitChar(n % 10)]
  }

  /** JavaScript's rendering of an integral number, with a leading minus. */
  function IntString(i: int): (s: string)
    ensures |s| >= 1
    ensures i < 0 <==> s[0] == '-'
  {
    if i < 0 then "-" + Decimal(-i) else Decimal(i)
  }

  /** The value of a non-empty string of decimal digits. */
  function DigitsValue(s: string): (n: nat)
    requires forall i :: 0 <= i < |s| ==> IsDigit(s[i])
  {
    if |s| == 0 then 0 else DigitsValue(s[..|s| - 1]) * 10 + DigitValue(s[|s| - 1])
  }

  /** Reading the decimal rendering back gives the number. */
  lemma {:induction false} DigitsValueOfDecimal(n: nat)
    ensures DigitsValue(Decimal(n)) == n
  {
    var s := Decimal(n);
    if n >= 10 {
      assert s[..|s| - 1] == Decimal(n / 10);
      DigitsValueOfDecimal(n / 10);
    }
  }

  /** Every digit string without a leading zero is the rendering of its value. */
  lemma {:induction false} DecimalOfDigitsValue(s: string)
    requires |s| >= 1 && (forall i :: 0 <= i < |s| ==> IsDigit(s[i]))
    requires |s| > 1 ==> s[0] != '0'
    ensures Decimal(DigitsValue(s)) == s
  {
    var n := DigitsValue(s);
    var p := s[..|s| - 1];
    if |s| == 1 {
      assert s[..0] == [] && DigitsValue(s[..0]) == 0;
      assert n == DigitValue(s[0]);
    } else {
      assert p[0] == s[0];
      DecimalOfDigitsValue(p);
      var m := DigitsValue(p);
      DigitsValuePositive(p);
      assert n / 10 == m && n % 10 == DigitValue(s[|s| - 1]);
      assert s == p + [s[|s| - 1]];
    }
  }

  lemma {:induction false} DigitsValuePositive(s: string)
    requires |s| >= 1 && (forall i :: 0 <= i < |s| ==> IsDigit(s[i]))
    requires s[0] != '0'
    ensures DigitsValue(s) >= 1
  {
    if |s| > 1 {
      assert s[..|s| - 1][0] == s[0];
      DigitsValuePositive(s[..|s| - 1]);
    } else {
      assert DigitValue(s[0]) != 0;
    }
  }

  /** Distinct numbers have distinct renderings. */
  lemma DecimalInjective(a: nat, b: nat)
    ensures Decimal(a) == Decimal(b) ==> a == b
  {
    if Decimal(a) == Decimal(b) {
      DigitsValueOfDecimal(a);
      DigitsValueOfDecimal(b);
    }
  }

  /** The length of the longest string of a finite set (0 for none). */
  ghost function MaxLength(s: set<string>): (n: nat)
    ensures forall x :: x in s ==> |x| <= n
    decreases s
  {
    if s == {} then 0
    else
      var x :| x in s;
      var r := MaxLength(s - {x});
      if |x| > r then |x| else r
  }

  /** Some string is outside any finite set: fresh identifiers can always be drawn. */
  lemma FreshStringExists(s: set<string>)
    ensures exists w :: w !in s
  {
    var w := seq(MaxLength(s) + 1, i => 'u');
    assert w !in s;
  }

  /** No element occurs twice. */
  predicate Distinct<T(==)>(s: seq<T>)
  {
    forall i, j :: 0 <= i < j < |s| ==> s[i] != s[j]
  }

  /** n is 2^k for some k. */
  predicate IsPowerOfTwo(n: nat)
  {
    n == 1 || (n >= 2 && n % 2 == 0 && IsPowerOfTwo(n / 2))
  }

  function Pow2(k: nat): (n: nat)
    ensures n >= 1
  {
    if k == 0 then 1 else 2 * Pow2(k - 1)
  }

  /** The binary logarithm of a power of two. */
  function Log2(n: nat): (k: nat)
    requires IsPowerOfTwo(n)
    ensures Pow2(k) == n
  {
    if n == 1 then 0 else 1 + Log2(n / 2)
  }

  /**
   * JavaScript's white space and line terminators, as skipped by `trim` and
   * `parseInt`: tab, line feed, vertical tab, form feed, carriage return,
   * space, no-break space, the byte order mark and the Unicode space
   * separators and line/paragraph separators.
   */
  predicate IsJsWhitespace(c: char)
  {
    var n := c as int;
    (0x09 <= n <= 0x0D) || n == 0x20 || n == 0xA0 || n == 0xFEFF || n == 0x1680 ||
    (0x2000 <= n <= 0x200A) || n == 0x2028 || n == 0x2029 || n == 0x202F || n == 0x205F ||
    n == 0x3000
  }
}
