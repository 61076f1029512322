/** String helpers: how JavaScript renders an integer in a template or a
    concatenation, and `Array.prototype.join`. */
module Text {

  predicate IsDigit(c: char)
  {
    '0' <= c <= '9'
  }

  predicate AllDigits(s: string)
  {
    forall i :: 0 <= i < |s| ==> IsDigit(s[i])
  }

  function DigitChar(d: int): (c: char)
    requires 0 <= d < 10
    ensures IsDigit(c)
  {
    ('0' as int + d) as char
  }

  /** Decimal rendering of a non-negative integer, without leading zeros. */
  function Natural(n: nat): (s: string)
    ensures |s| > 0 && AllDigits(s)
    ensures |s| == 1 <==> n < 10
  {
    if n < 10 then [DigitChar(n)] else Natural(n / 10) + [DigitChar(n % 10)]
  }

  /** `String(n)` for an integer `n`. */
  function NumberString(n: int): (s: string)
    ensures n >= 0 ==> s == Natural(n)
    ensures n < 0 ==> s == "-" + Natural(-n)
  {
    if n < 0 then "-" + Natural(-n) else Natural(n)
  }

  /** Different numbers are rendered differently. */
  lemma {:induction false} NaturalInjective(a: nat, b: nat)
    requires Natural(a) == Natural(b)
    ensures a == b
  {
    if a >= 10 && b >= 10 {
      var sa, sb := Natural(a), Natural(b);
      assert sa[|sa| - 1] == DigitChar(a % 10) && sb[|sb| - 1] == DigitChar(b % 10);
      assert Natural(a / 10) == sa[..|sa| - 1] == sb[..|sb| - 1] == Natural(b / 10);
      NaturalInjective(a / 10, b / 10);
    }
  }

  /** When two digit strings are each followed by a non-digit, equal
      concatenations have equal digit prefixes. */
  lemma DigitPrefix(x: string, y: string, x': string, y': string)
    requires AllDigits(x) && AllDigits(x')
    requires |y| > 0 && !IsDigit(y[0]) && |y'| > 0 && !IsDigit(y'[0])
    requires x + y == x' + y'
    ensures x == x' && y == y'
  {
    assert x == (x + y)[..|x|] == (x' + y')[..|x'|] == x';
    assert y == (x + y)[|x|..] == (x' + y')[|x'|..] == y';
  }

  /** `parts.join(sep)`. */
  function Join(parts: seq<string>, sep: string): string
  {
    if |parts| == 0 then ""
    else if |parts| == 1 then parts[0]
    else parts[0] + sep + Join(parts[1..], sep)
  }

  lemma {:induction false} JoinConcat(a: seq<string>, b: seq<string>, sep: string)
    requires |a| > 0 && |b| > 0
    ensures Join(a + b, sep) == Join(a, sep) + sep + Join(b, sep)
  {
    if |a| > 1 {
      assert (a + b)[1..] == a[1..] + b;
      JoinConcat(a[1..], b, sep);
    } else {
      assert (a + b)[1..] == b;
    }
  }
}
