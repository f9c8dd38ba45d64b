/** Character-level operations on Swift strings that the view models rely on:
    string ordering, ASCII lower-casing, decimal rendering and `Int(String)`. */
module Text {
  import opened Wrappers

  /** Swift's `<` on strings: lexicographic by character, a proper prefix first. */
  predicate LexLess(a: string, b: string)
    decreases |b|
  {
    b != [] && (a == [] || a[0] < b[0] || (a[0] == b[0] && LexLess(a[1..], b[1..])))
  }

  lemma {:induction false} LexLessIrreflexive(a: string)
    ensures !LexLess(a, a)
    decreases |a|
  {
    if a != [] {
      LexLessIrreflexive(a[1..]);
    }
  }

  lemma {:induction false} LexLessAsymmetric(a: string, b: string)
    ensures LexLess(a, b) ==> !LexLess(b, a)
    decreases |a|
  {
    if a != [] && b != [] && a[0] == b[0] {
      LexLessAsymmetric(a[1..], b[1..]);
    }
  }

  lemma {:induction false} LexLessTransitive(a: string, b: string, c: string)
    ensures LexLess(a, b) && LexLess(b, c) ==> LexLess(a, c)
    decreases |a|
  {
    if a != [] && b != [] && c != [] && a[0] == b[0] == c[0] {
      LexLessTransitive(a[1..], b[1..], c[1..]);
    }
  }

  /** Distinct strings are always comparable. */
  lemma {:induction false} LexLessTotal(a: string, b: string)
    ensures a == b || LexLess(a, b) || LexLess(b, a)
    decreases |a|
  {
    if a != [] && b != [] && a[0] == b[0] {
      LexLessTotal(a[1..], b[1..]);
      assert a == [a[0]] + a[1..] && b == [b[0]] + b[1..];
    }
  }

  /** `Character.lowercased()` restricted to ASCII letters. */
  function AsciiLower(c: char): (r: char)
    ensures 'A' <= c <= 'Z' ==> 'a' <= r <= 'z' && r as int - c as int == 32
    ensures !('A' <= c <= 'Z') ==> r == c
  {
    if 'A' <= c <= 'Z' then (c as int + 32) as char else c
  }

  /** `String.lowercased()` restricted to ASCII letters. */
  function Lowercased(s: string): string {
    seq(|s|, i requires 0 <= i < |s| => AsciiLower(s[i]))
  }

  /** The same character, or one ASCII letter in its two cases. */
  predicate CaseVariants(c: char, d: char) {
    || c == d
    || ('A' <= c <= 'Z' && d as int == c as int + 32)
    || ('A' <= d <= 'Z' && c as int == d as int + 32)
  }

  /** Two characters lower-case alike exactly when they are case variants. */
  lemma AsciiLowerAlike(c: char, d: char)
    ensures AsciiLower(c) == AsciiLower(d) <==> CaseVariants(c, d)
  {
  }

  /** Two strings lower-case alike exactly when they differ only in the case
      of ASCII letters. */
  lemma LowercasedIgnoresCase(s: string, t: string)
    ensures Lowercased(s) == Lowercased(t) <==> |s| == |t| && forall i :: 0 <= i < |s| ==> CaseVariants(s[i], t[i])
  {
    if |s| == |t| {
      forall i | 0 <= i < |s| ensures Lowercased(s)[i] == Lowercased(t)[i] <==> CaseVariants(s[i], t[i]) {
        AsciiLowerAlike(s[i], t[i]);
      }
      if forall i :: 0 <= i < |s| ==> CaseVariants(s[i], t[i]) {
        assert forall i :: 0 <= i < |s| ==> Lowercased(s)[i] == Lowercased(t)[i];
      }
    }
  }

  /** Lower-casing twice is lower-casing once. */
  lemma LowercasedIdempotent(s: string)
    ensures Lowercased(Lowercased(s)) == Lowercased(s)
  {
  }

  predicate IsDigit(c: char) {
    '0' <= c <= '9'
  }

  predicate AllDigits(s: string) {
    forall i :: 0 <= i < |s| ==> IsDigit(s[i])
  }

  function Digit(d: nat): (c: char)
    requires d < 10
    ensures IsDigit(c) && c as int - '0' as int == d
  {
    ('0' as int + d) as char
  }

  /** The decimal rendering of a natural number, as `%d` prints it. */
  function Decimal(n: nat): (s: string)
    ensures s != [] && AllDigits(s)
    ensures s[0] == '0' ==> n == 0
  {
    if n < 10 then [Digit(n)] else Decimal(n / 10) + [Digit(n % 10)]
  }

  /** The number a string of decimal digits denotes. */
  function DigitsValue(s: string): nat
    requires AllDigits(s)
  {
    if s == [] then 0 else 10 * DigitsValue(s[..|s| - 1]) + (s[|s| - 1] as int - '0' as int)
  }

  /** `Decimal` is inverted by reading the digits back. */
  lemma {:induction false} DecimalValue(n: nat)
    ensures DigitsValue(Decimal(n)) == n
  {
    if n >= 10 {
      DecimalValue(n / 10);
      var s := Decimal(n);
      assert s[..|s| - 1] == Decimal(n / 10);
    }
  }

  /** Rendering is one-to-one. */
  lemma DecimalInjective(m: nat, n: nat)
    ensures Decimal(m) == Decimal(n) ==> m == n
  {
    DecimalValue(m);
    DecimalValue(n);
  }

  /** `%0<width>d`: left-pads with zeros up to `width` characters. */
  function ZeroPad(s: string, width: nat): (r: string)
    ensures |r| == if |s| < width then width else |s|
    ensures r[|r| - |s|..] == s
    ensures forall i :: 0 <= i < |r| - |s| ==> r[i] == '0'
  {
    if |s| < width then seq(width - |s|, _ => '0') + s else s
  }

  /** `%02d` of a number below 100 is exactly its two decimal digits. */
  lemma TwoDigits(n: nat)
    requires n < 100
    ensures ZeroPad(Decimal(n), 2) == [Digit(n / 10), Digit(n % 10)]
  {
    var d := Decimal(n);
    if n < 10 {
      assert d == [Digit(n)];
      assert ZeroPad(d, 2) == ['0'] + d;
    } else {
      assert d == Decimal(n / 10) + [Digit(n % 10)] == [Digit(n / 10), Digit(n % 10)];
      assert ZeroPad(d, 2) == d;
    }
  }

  const Int64Min: int := -0x8000_0000_0000_0000
  const Int64Max: int := 0x7FFF_FFFF_FFFF_FFFF

  /** Swift's `Int(String)`: an optional `+` or `-`, then one or more ASCII
      digits and nothing else; a value outside the 64-bit range gives nil. */
  function ParseInt(s: string): (r: Option<int>)
    ensures r.Some? ==> Int64Min <= r.value <= Int64Max
    ensures r.Some? ==> |s| >= 1 && AllDigits(s[1..]) && (IsDigit(s[0]) || s[0] in "+-")
    ensures r.Some? && s[0] != '-' ==> r.value >= 0
    ensures r.Some? && s[0] in "+-" ==> |s| >= 2
    ensures r.Some? && s[0] == '-' ==> r.value == -(DigitsValue(s[1..]) as int)
    ensures r.Some? && s[0] == '+' ==> r.value == DigitsValue(s[1..])
    ensures r.Some? && IsDigit(s[0]) ==> AllDigits(s) && r.value == DigitsValue(s)
  {
    if s == [] then None
    else if s[0] == '+' || s[0] == '-' then
      var body := s[1..];
      if body == [] || !AllDigits(body) then None
      else
        var v: int := if s[0] == '-' then 0 - DigitsValue(body) as int else DigitsValue(body) as int;
        if Int64Min <= v <= Int64Max then Some(v) else None
    else if !AllDigits(s) then None
    else
      var v := DigitsValue(s);
      if v <= Int64Max then Some(v) else None
  }

  /** `Int(String)` reads back what `%d` writes, within the 64-bit range. */
  lemma ParseIntDecimal(n: nat)
    requires n <= Int64Max
    ensures ParseInt(Decimal(n)) == Some(n)
    ensures ParseInt("-" + Decimal(n)) == Some(-(n as int))
    ensures ParseInt("+" + Decimal(n)) == Some(n)
  {
    DecimalValue(n);
    assert ("-" + Decimal(n))[1..] == Decimal(n);
    assert ("+" + Decimal(n))[1..] == Decimal(n);
  }

  /** A negative decimal down to the least 64-bit `Int` parses back to its
      value. */
  lemma ParseIntNegative(n: nat)
    requires n <= -Int64Min
    ensures ParseInt("-" + Decimal(n)) == Some(-(n as int))
  {
    DecimalValue(n);
    assert ("-" + Decimal(n))[1..] == Decimal(n);
  }
}
