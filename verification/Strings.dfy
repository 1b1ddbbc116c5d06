/** Text as the services build and compare it: prefixes, decimals, and the
    order of strings by code point. */
module Strings {
  /** Rust's and Python's order on strings. */
  predicate Less(a: string, b: string) {
    b != [] && (a == [] || a[0] < b[0] || (a[0] == b[0] && Less(a[1..], b[1..])))
  }

  /** Strings compare by their first difference, and a prefix comes first. */
  lemma {:induction false} FirstDifferenceDecides(common: string, a: string, b: string)
    ensures a == [] && b != [] ==> Less(common + a, common + b) && !Less(common + b, common + a)
    ensures a != [] && b != [] && a[0] < b[0] ==> Less(common + a, common + b) && !Less(common + b, common + a)
  {
    if common == [] {
      assert common + a == a && common + b == b;
    } else {
      assert (common + a)[1..] == common[1..] + a && (common + b)[1..] == common[1..] + b;
      FirstDifferenceDecides(common[1..], a, b);
    }
  }

  lemma {:induction false} LessIrreflexive(a: string)
    ensures !Less(a, a)
  {
    if a != [] { LessIrreflexive(a[1..]); }
  }

  lemma {:induction false} LessTransitive(a: string, b: string, c: string)
    requires Less(a, b) && Less(b, c)
    ensures Less(a, c)
  {
    if a != [] && a[0] == b[0] && b[0] == c[0] {
      LessTransitive(a[1..], b[1..], c[1..]);
    }
  }

  lemma {:induction false} LessTotal(a: string, b: string)
    ensures Less(a, b) || a == b || Less(b, a)
  {
    if a != [] && b != [] && a[0] == b[0] {
      LessTotal(a[1..], b[1..]);
      assert a == [a[0]] + a[1..] && b == [b[0]] + b[1..];
    }
  }

  predicate StartsWith(s: string, prefix: string) {
    |prefix| <= |s| && s[..|prefix|] == prefix
  }

  /** Drops `prefix` from the front as often as it is there. */
  function TrimStart(s: string, prefix: string): (t: string)
    requires prefix != ""
    ensures !StartsWith(t, prefix)
    decreases |s|
  {
    if StartsWith(s, prefix) then TrimStart(s[|prefix|..], prefix) else s
  }

  /** What comes before the first `c`, or everything. */
  function Before(s: string, c: char): string {
    if s == "" || s[0] == c then "" else [s[0]] + Before(s[1..], c)
  }

  function Digit(d: nat): char
    requires d < 10
  {
    ['0', '1', '2', '3', '4', '5', '6', '7', '8', '9'][d]
  }

  function Decimal(n: nat): (s: string)
    ensures s != ""
  {
    if n < 10 then [Digit(n)] else Decimal(n / 10) + [Digit(n % 10)]
  }

  lemma DigitInjective(a: nat, b: nat)
    requires a < 10 && b < 10 && Digit(a) == Digit(b)
    ensures a == b
  {
  }

  lemma {:induction false} DecimalInjective(a: nat, b: nat)
    requires Decimal(a) == Decimal(b)
    ensures a == b
  {
    if a < 10 && b < 10 {
      DigitInjective(a, b);
    } else {
      var s, t := Decimal(a), Decimal(b);
      assert s[|s| - 1] == Digit(a % 10) && t[|t| - 1] == Digit(b % 10);
      DigitInjective(a % 10, b % 10);
      if a >= 10 && b >= 10 {
        assert s[..|s| - 1] == Decimal(a / 10) && t[..|t| - 1] == Decimal(b / 10);
        DecimalInjective(a / 10, b / 10);
      }
    }
  }

  lemma {:induction false} DigitsOnly(n: nat, c: char)
    requires c < '0' || c > '9'
    ensures c !in Decimal(n)
  {
    if n >= 10 { DigitsOnly(n / 10, c); }
  }
}
