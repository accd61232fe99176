// Decimal numerals and the lexicographic order of strings, shared by the
// version order, the release-notes tags and the changelog footer.
module Decimals {

  predicate IsDigit(c: char) {
    '0' <= c <= '9'
  }

  predicate AllDigits(s: string) {
    forall i | 0 <= i < |s| :: IsDigit(s[i])
  }

  // A nonempty run of digits: the `\d+` of a tag or a version part.
  predicate IsNumeral(s: string) {
    s != [] && AllDigits(s)
  }

  function DigitValue(c: char): nat
    requires IsDigit(c)
  {
    c as int - '0' as int
  }

  function DigitChar(d: nat): char
    requires d < 10
  {
    ('0' as int + d) as char
  }

  function Value(s: string): nat
    requires AllDigits(s)
  {
    if s == [] then 0 else 10 * Value(s[..|s| - 1]) + DigitValue(s[|s| - 1])
  }

  // The numeral that string interpolation prints for a count.
  function Decimal(n: nat): string {
    if n < 10 then [DigitChar(n)] else Decimal(n / 10) + [DigitChar(n % 10)]
  }

  // n without its last k decimal digits.
  function DropDigits(n: nat, k: nat): nat {
    if k == 0 then n else DropDigits(n / 10, k - 1)
  }

  lemma {:induction false} DecimalReadsBack(n: nat)
    ensures IsNumeral(Decimal(n)) && Value(Decimal(n)) == n
  {
    if n < 10 {
      assert Decimal(n)[..0] == [];
    } else {
      DecimalReadsBack(n / 10);
      var s := Decimal(n);
      assert s[..|s| - 1] == Decimal(n / 10);
    }
  }

  // Counting one more entry lengthens the count by at most one digit.
  lemma {:induction false} DigitsGrow(n: nat)
    ensures |Decimal(n)| <= |Decimal(n + 1)| <= |Decimal(n)| + 1
  {
    if n >= 9 {
      if n % 10 == 9 {
        assert (n + 1) / 10 == n / 10 + 1;
        if n >= 10 { DigitsGrow(n / 10); }
      } else {
        assert (n + 1) / 10 == n / 10;
      }
    }
  }

  lemma {:induction false} DigitsMonotone(m: nat, n: nat)
    requires m <= n
    ensures |Decimal(m)| <= |Decimal(n)|
  {
    if m < n {
      DigitsMonotone(m, n - 1);
      DigitsGrow(n - 1);
    }
  }

  lemma {:induction false} LeadingDigits(n: nat, k: nat)
    requires k < |Decimal(n)|
    ensures Decimal(n)[..|Decimal(n)| - k] == Decimal(DropDigits(n, k))
  {
    var s := Decimal(n);
    if k == 0 {
      assert s[..|s|] == s;
    } else {
      var t := Decimal(n / 10);
      assert s == t + [DigitChar(n % 10)];
      assert s[..|s| - k] == t[..|t| - (k - 1)];
      LeadingDigits(n / 10, k - 1);
    }
  }

  // --- Lexicographic order -------------------------------------------------

  // `left < right` on strings: the first differing character decides, and a
  // proper prefix comes first.
  predicate LexLess(a: string, b: string) {
    b != [] && (a == [] || a[0] < b[0] || (a[0] == b[0] && LexLess(a[1..], b[1..])))
  }

  lemma {:induction false} LexTotal(a: string, b: string)
    ensures a != b ==> LexLess(a, b) || LexLess(b, a)
    ensures !(LexLess(a, b) && LexLess(b, a))
    ensures !LexLess(a, a)
  {
    if a != [] && b != [] && a[0] == b[0] {
      LexTotal(a[1..], b[1..]);
      assert a == [a[0]] + a[1..];
      assert b == [b[0]] + b[1..];
    }
    if a != [] {
      LexTotal(a[1..], a[1..]);
    }
  }

  lemma {:induction false} LexTransitive(a: string, b: string, c: string)
    requires LexLess(a, b) && LexLess(b, c)
    ensures LexLess(a, c)
  {
    if a != [] && a[0] == b[0] == c[0] {
      LexTransitive(a[1..], b[1..], c[1..]);
    }
  }

  // A common prefix does not change the order.
  lemma {:induction false} LexCommonPrefix(p: string, a: string, b: string)
    ensures LexLess(p + a, p + b) <==> LexLess(a, b)
  {
    if p == [] {
      assert p + a == a && p + b == b;
    } else {
      LexCommonPrefix(p[1..], a, b);
      assert (p + a)[1..] == p[1..] + a;
      assert (p + b)[1..] == p[1..] + b;
    }
  }

  // Against a longer string, only its leading characters matter.
  lemma {:induction false} LexAgainstLonger(a: string, b: string)
    requires |a| < |b|
    ensures LexLess(a, b) <==> !LexLess(b[..|a|], a)
  {
    if a != [] && a[0] == b[0] {
      LexAgainstLonger(a[1..], b[1..]);
      assert b[..|a|][1..] == b[1..][..|a| - 1];
    }
  }

  lemma {:induction false} LexByLast(a: string, b: string)
    requires |a| == |b| > 0
    ensures LexLess(a, b) <==>
            LexLess(a[..|a| - 1], b[..|b| - 1]) ||
            (a[..|a| - 1] == b[..|b| - 1] && a[|a| - 1] < b[|b| - 1])
  {
    var a0, b0 := a[..|a| - 1], b[..|b| - 1];
    if |a| > 1 {
      assert a0[1..] == a[1..][..|a| - 2];
      assert b0[1..] == b[1..][..|b| - 2];
      if a[0] == b[0] {
        LexByLast(a[1..], b[1..]);
        assert a0 == [a[0]] + a0[1..];
        assert b0 == [b[0]] + b0[1..];
      }
    }
  }

  // On numerals of one length the string order is the numeric order.
  lemma {:induction false} LexIsNumeric(a: string, b: string)
    requires |a| == |b| && AllDigits(a) && AllDigits(b)
    ensures LexLess(a, b) <==> Value(a) < Value(b)
    ensures Value(a) == Value(b) ==> a == b
  {
    if a != [] {
      LexByLast(a, b);
      LexIsNumeric(a[..|a| - 1], b[..|b| - 1]);
      assert a == a[..|a| - 1] + [a[|a| - 1]];
      assert b == b[..|b| - 1] + [b[|b| - 1]];
    }
  }
}
