/**
 Text as the program compares and prints it: code point order (Python's `<` on
 `str`, SQLite's BINARY collation) and decimal integers.
 */
module Text {

  /** Lexicographic order by code point. */
  predicate Less(a: string, b: string) {
    if b == "" then false
    else if a == "" then true
    else a[0] < b[0] || (a[0] == b[0] && Less(a[1..], b[1..]))
  }

  /** Exactly one of before, equal and after holds. */
  lemma {:induction false} LessTotal(a: string, b: string)
    ensures Less(a, b) || a == b || Less(b, a)
    ensures !(Less(a, b) && Less(b, a))
    ensures Less(a, b) ==> a != b
  {
    if a == "" || b == "" {
    } else {
      assert a == [a[0]] + a[1..] && b == [b[0]] + b[1..];
      LessTotal(a[1..], b[1..]);
    }
  }

  lemma {:induction false} LessTransitive(a: string, b: string, c: string)
    requires Less(a, b) && Less(b, c)
    ensures Less(a, c)
  {
    if a != "" && a[0] == b[0] == c[0] {
      LessTransitive(a[1..], b[1..], c[1..]);
    }
  }

  /** Fields of equal width compare before whatever follows them. */
  lemma {:induction false} LessConcat(x: string, y: string, r: string, s: string)
    requires |x| == |y|
    ensures Less(x + r, y + s) <==> Less(x, y) || (x == y && Less(r, s))
  {
    if x == "" {
      assert x + r == r && y + s == s;
    } else {
      assert (x + r)[1..] == x[1..] + r && (y + s)[1..] == y[1..] + s;
      assert x == [x[0]] + x[1..] && y == [y[0]] + y[1..];
      LessConcat(x[1..], y[1..], r, s);
    }
  }

  predicate IsDigit(c: char) {
    '0' <= c <= '9'
  }

  predicate AllDigits(s: string) {
    forall i :: 0 <= i < |s| ==> IsDigit(s[i])
  }

  function DigitValue(c: char): (d: nat)
    requires IsDigit(c)
    ensures d < 10
  {
    (c - '0') as nat
  }

  function DigitChar(d: nat): (c: char)
    requires d < 10
    ensures IsDigit(c) && DigitValue(c) == d
  {
    '0' + d as char
  }

  /** `str(n)` for n >= 0. */
  function Digits(n: nat): (s: string)
    ensures |s| > 0 && AllDigits(s)
  {
    if n < 10 then [DigitChar(n)] else Digits(n / 10) + [DigitChar(n % 10)]
  }

  /** `str(n)`. */
  function Decimal(n: int): (s: string) {
    if n < 0 then "-" + Digits(-n) else Digits(n)
  }

  /** The number a run of digits denotes. */
  function Value(s: string): nat
    requires AllDigits(s)
  {
    if s == "" then 0 else 10 * Value(s[..|s| - 1]) + DigitValue(s[|s| - 1])
  }

  lemma {:induction false} ValueOfDigits(n: nat)
    ensures Value(Digits(n)) == n
  {
    if n < 10 {
      assert Digits(n)[..0] == "";
    } else {
      ValueOfDigits(n / 10);
      assert Digits(n)[..|Digits(n)| - 1] == Digits(n / 10);
    }
  }

  /** The text after a number does not continue it. */
  predicate NoDigitFirst(r: string) {
    r == "" || !IsDigit(r[0])
  }

  /** Length of the run of digits a text starts with. */
  function RunLength(t: string): nat {
    if NoDigitFirst(t) then 0 else 1 + RunLength(t[1..])
  }

  lemma {:induction false} RunLengthOf(x: string, r: string)
    requires AllDigits(x) && NoDigitFirst(r)
    ensures RunLength(x + r) == |x|
  {
    if x == "" {
      assert x + r == r;
    } else {
      assert (x + r)[1..] == x[1..] + r;
      RunLengthOf(x[1..], r);
    }
  }

  /** Where one run of digits ends is decided by the text alone. */
  lemma DigitRunUnique(x: string, y: string, r: string, s: string)
    requires AllDigits(x) && AllDigits(y)
    requires NoDigitFirst(r) && NoDigitFirst(s)
    requires x + r == y + s
    ensures x == y && r == s
  {
    RunLengthOf(x, r);
    RunLengthOf(y, s);
    assert x == (x + r)[..|x|] && y == (y + s)[..|x|];
    assert r == (x + r)[|x|..] && s == (y + s)[|x|..];
  }

  lemma DigitsUnique(m: nat, n: nat, r: string, s: string)
    requires NoDigitFirst(r) && NoDigitFirst(s)
    requires Digits(m) + r == Digits(n) + s
    ensures m == n && r == s
  {
    DigitRunUnique(Digits(m), Digits(n), r, s);
    ValueOfDigits(m);
    ValueOfDigits(n);
  }

  lemma DecimalSign(n: int, r: string)
    ensures Decimal(n) + r != "" && ((Decimal(n) + r)[0] == '-' <==> n < 0)
    ensures n < 0 ==> (Decimal(n) + r)[1..] == Digits(-n) + r
    ensures n >= 0 ==> Decimal(n) + r == Digits(n) + r
  {
    var d := Decimal(n);
    assert (d + r)[0] == d[0];
    if n < 0 {
      assert d[1..] == Digits(-n);
      assert (d + r)[1..] == d[1..] + r;
    } else {
      assert IsDigit(Digits(n)[0]);
    }
  }

  /** Printed integers are self-delimiting when no digit follows. */
  lemma DecimalUnique(m: int, n: int, r: string, s: string)
    requires NoDigitFirst(r) && NoDigitFirst(s)
    requires Decimal(m) + r == Decimal(n) + s
    ensures m == n && r == s
  {
    DecimalSign(m, r);
    DecimalSign(n, s);
    if m < 0 {
      DigitsUnique(-m, -n, r, s);
    } else {
      DigitsUnique(m, n, r, s);
    }
  }

  /** Zero-padded decimal of a fixed width, as `strftime` and `isoformat` print a field. */
  function Pad(n: nat, width: nat): (s: string)
    ensures |s| == width && AllDigits(s)
  {
    if width == 0 then "" else Pad(n / 10, width - 1) + [DigitChar(n % 10)]
  }

  function Pow10(k: nat): (p: nat)
    ensures p > 0
  {
    if k == 0 then 1 else 10 * Pow10(k - 1)
  }

  /** Fixed-width decimals compare as the numbers they print. */
  lemma {:induction false} PadOrder(m: nat, n: nat, width: nat)
    requires m < Pow10(width) && n < Pow10(width)
    ensures Less(Pad(m, width), Pad(n, width)) <==> m < n
    ensures Pad(m, width) == Pad(n, width) <==> m == n
  {
    if width > 0 {
      PadOrder(m / 10, n / 10, width - 1);
      var x, y := Pad(m / 10, width - 1), Pad(n / 10, width - 1);
      var c, d := [DigitChar(m % 10)], [DigitChar(n % 10)];
      LessConcat(x, y, c, d);
      assert c[1..] == "" && d[1..] == "";
      assert Less(c, d) <==> m % 10 < n % 10;
      if x + c == y + d {
        assert x == (x + c)[..width - 1] && y == (y + d)[..width - 1];
        assert c[0] == (x + c)[width - 1] && d[0] == (y + d)[width - 1];
      }
    }
  }

  /** No text stands twice. */
  predicate Distinct(ss: seq<string>) {
    forall i, j :: 0 <= i < j < |ss| ==> ss[i] != ss[j]
  }

  /** `part in s`. */
  predicate Contains(s: string, part: string) {
    |part| <= |s| && (s[..|part|] == part || (s != "" && Contains(s[1..], part)))
  }

  /** '\n'.join(lines). */
  function Join(lines: seq<string>): string {
    if lines == [] then ""
    else if |lines| == 1 then lines[0]
    else Join(lines[..|lines| - 1]) + "\n" + lines[|lines| - 1]
  }
}
