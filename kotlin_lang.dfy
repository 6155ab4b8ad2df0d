/** The parts of Kotlin's runtime the modelled code leans on: values of type
    `Any`, 32-bit `Int` arithmetic, `Int.toString()`, `String.toIntOrNull()`,
    ASCII case mapping and `String.compareTo`. */
module KotlinLang {
  import opened Wrappers

  /** A non-null value of static type `Any`, as the demos pass them around:
      boxed `Int`s and `Long`s, strings, booleans, characters, and objects of
      other classes, known by class name. */
  datatype AnyValue =
    | IntValue(i: int)
    | LongValue(l: int)
    | StringValue(s: string)
    | BooleanValue(b: bool)
    | CharValue(c: char)
    | OtherObject(className: string)

  const INT_MIN: int := -0x8000_0000
  const INT_MAX: int := 0x7FFF_FFFF
  const MODULUS: int := 0x1_0000_0000

  predicate InIntRange(x: int) {
    INT_MIN <= x <= INT_MAX
  }

  // ---------------------------------------------------------------------------
  // 32-bit two's-complement arithmetic
  // ---------------------------------------------------------------------------

  /** The Kotlin `Int` that the mathematical integer `x` wraps around to. */
  function Wrap(x: int): (r: int)
    ensures InIntRange(r)
    ensures (x - r) % MODULUS == 0
    ensures InIntRange(x) ==> r == x
  {
    (x - INT_MIN) % MODULUS + INT_MIN
  }

  /** `a + b` on Kotlin `Int`s. */
  function Add(a: int, b: int): int {
    Wrap(a + b)
  }

  /** `a * b` on Kotlin `Int`s. */
  function Mul(a: int, b: int): int {
    Wrap(a * b)
  }

  /** Two integers congruent modulo 2^32 wrap to the same `Int`. */
  lemma WrapCongruent(x: int, y: int)
    requires (x - y) % MODULUS == 0
    ensures Wrap(x) == Wrap(y)
  {
    var k := (x - y) / MODULUS;
    assert x - y == MODULUS * k;
    assert x - INT_MIN == (y - INT_MIN) + MODULUS * k;
    ModMultipleShift(y - INT_MIN, k);
  }

  lemma ModMultipleShift(a: int, k: int)
    ensures (a + MODULUS * k) % MODULUS == a % MODULUS
  {
    var q := a / MODULUS;
    var r := a % MODULUS;
    assert a + MODULUS * k == MODULUS * (q + k) + r;
  }

  lemma CongruentScale(x: int, y: int, c: int)
    requires (x - y) % MODULUS == 0
    ensures (x * c - y * c) % MODULUS == 0
  {
    var k := (x - y) / MODULUS;
    assert x - y == MODULUS * k;
    assert x * c - y * c == MODULUS * (k * c) by {
      assert x * c - y * c == (x - y) * c;
    }
    ModMultipleShift(0, k * c);
  }

  /** Wrapping an intermediate sum changes nothing: `Int` addition is addition
      modulo 2^32. */
  lemma AddWrapsOnce(a: int, b: int)
    ensures Add(Wrap(a), b) == Wrap(a + b)
  {
    WrapCongruent(Wrap(a) + b, a + b);
  }

  /** Wrapping an intermediate product changes nothing either. */
  lemma MulWrapsOnce(a: int, c: int)
    ensures Mul(Wrap(a), c) == Wrap(a * c)
  {
    CongruentScale(Wrap(a), a, c);
    WrapCongruent(Wrap(a) * c, a * c);
  }

  // ---------------------------------------------------------------------------
  // Decimal text: Int.toString() and String.toIntOrNull()
  // ---------------------------------------------------------------------------

  predicate IsDigit(c: char) {
    '0' <= c <= '9'
  }

  predicate AllDigits(s: string) {
    forall i :: 0 <= i < |s| ==> IsDigit(s[i])
  }

  function DigitChar(d: int): (c: char)
    requires 0 <= d < 10
    ensures IsDigit(c)
  {
    ('0' as int + d) as char
  }

  function DigitValue(c: char): (d: int)
    requires IsDigit(c)
    ensures 0 <= d < 10
  {
    c as int - '0' as int
  }

  /** The decimal digits of `n`, most significant first, without leading zeros. */
  function NatToString(n: nat): (s: string)
    ensures 0 < |s|
    ensures AllDigits(s)
    ensures s[0] == '0' ==> n == 0
  {
    if n < 10 then [DigitChar(n)] else NatToString(n / 10) + [DigitChar(n % 10)]
  }

  /** `Int.toString()`: an optional minus sign, then the digits. */
  function IntToString(n: int): string {
    if n < 0 then "-" + NatToString(-n) else NatToString(n)
  }

  /** The value of a run of decimal digits. */
  function DigitsValue(s: string): nat
    requires AllDigits(s)
  {
    if s == [] then 0 else DigitsValue(s[..|s| - 1]) * 10 + DigitValue(s[|s| - 1])
  }

  /** `String.toIntOrNull()` in radix 10: an optional `-` or `+`, then at least
      one digit, and a value that fits in an `Int`; anything else is null. */
  function ToIntOrNull(s: string): (r: Option<int>)
    ensures r.Some? ==> InIntRange(r.value)
  {
    if |s| == 0 then None
    else
      var negative := s[0] == '-';
      var start := if s[0] == '-' || s[0] == '+' then 1 else 0;
      var digits := s[start..];
      if |digits| == 0 || !AllDigits(digits) then None
      else
        var d: int := DigitsValue(digits);
        var v := if negative then -d else d;
        if InIntRange(v) then Some(v) else None
  }

  lemma {:induction false} DigitsOfNat(n: nat)
    ensures DigitsValue(NatToString(n)) == n
  {
    if n >= 10 {
      var s := NatToString(n);
      assert s[..|s| - 1] == NatToString(n / 10);
      DigitsOfNat(n / 10);
    }
  }

  /** Printing an `Int` and reading it back gives the same `Int`. */
  lemma ToIntOrNullInverts(n: int)
    requires InIntRange(n)
    ensures ToIntOrNull(IntToString(n)) == Some(n)
  {
    var s := IntToString(n);
    if n < 0 {
      assert s[0] == '-' && s[1..] == NatToString(-n);
      DigitsOfNat(-n);
    } else {
      assert s == NatToString(n) && IsDigit(s[0]) && s[0..] == s;
      DigitsOfNat(n);
    }
  }

  // ---------------------------------------------------------------------------
  // String.length: UTF-16 code units
  // ---------------------------------------------------------------------------

  /** The UTF-16 code units one character takes: a surrogate pair (two) for
      a character outside the Basic Multilingual Plane, one otherwise. */
  function CharUnits(c: char): nat {
    if c as int > 0xFFFF then 2 else 1
  }

  /** `String.length`. A Kotlin string is a sequence of UTF-16 code units,
      so the length counts two for every character above U+FFFF. */
  function Length(s: string): (n: nat)
    ensures |s| <= n <= 2 * |s|
    decreases |s|
  {
    if s == [] then 0 else CharUnits(s[0]) + Length(s[1..])
  }

  /** On text in the Basic Multilingual Plane the length is the number of
      characters. */
  lemma {:induction false} LengthOfBmp(s: string)
    requires forall i :: 0 <= i < |s| ==> s[i] as int <= 0xFFFF
    ensures Length(s) == |s|
    decreases |s|
  {
    if s != [] {
      assert forall i :: 0 <= i < |s[1..]| ==> s[1..][i] == s[i + 1];
      LengthOfBmp(s[1..]);
    }
  }

  /** An emoji is one character but two code units. */
  lemma LengthCountsSurrogatePairs()
    ensures Length("\U{1F600}") == 2
    ensures Length("a\U{1F600}") == 3
  {
    assert "a\U{1F600}"[1..] == "\U{1F600}";
    assert "\U{1F600}"[1..] == "";
  }

  // ---------------------------------------------------------------------------
  // Case mapping (ASCII only) and string comparison
  // ---------------------------------------------------------------------------

  predicate IsLower(c: char) {
    'a' <= c <= 'z'
  }

  predicate IsUpper(c: char) {
    'A' <= c <= 'Z'
  }

  /** `Char.uppercase()` restricted to ASCII letters. */
  function UpperChar(c: char): (u: char)
    ensures IsLower(c) ==> IsUpper(u) && u as int == c as int - 32
    ensures !IsLower(c) ==> u == c
  {
    if IsLower(c) then (c as int - 32) as char else c
  }

  /** `Char.lowercase()` restricted to ASCII letters. */
  function LowerChar(c: char): (l: char)
    ensures IsUpper(c) ==> IsLower(l) && l as int == c as int + 32
    ensures !IsUpper(c) ==> l == c
  {
    if IsUpper(c) then (c as int + 32) as char else c
  }

  /** `String.uppercase()` restricted to ASCII letters. */
  function Uppercase(s: string): (u: string)
    ensures |u| == |s|
    ensures forall i :: 0 <= i < |s| ==> u[i] == UpperChar(s[i])
  {
    seq(|s|, i requires 0 <= i < |s| => UpperChar(s[i]))
  }

  /** Upper-casing keeps the length, in code units as well as in characters. */
  lemma {:induction false} UppercaseKeepsUnits(s: string)
    ensures Length(Uppercase(s)) == Length(s)
    decreases |s|
  {
    if s != [] {
      assert Uppercase(s)[1..] == Uppercase(s[1..]);
      UppercaseKeepsUnits(s[1..]);
    }
  }

  /** `a < b` for Kotlin strings: lexicographic by character, a proper prefix
      being smaller. */
  predicate LexLess(a: string, b: string)
    decreases |a|
  {
    if |a| == 0 then |b| > 0
    else if |b| == 0 then false
    else if a[0] != b[0] then a[0] < b[0]
    else LexLess(a[1..], b[1..])
  }

  /** `String.compareTo` is a strict total order. */
  lemma {:induction false} LexLessTrichotomy(a: string, b: string)
    ensures a == b || LexLess(a, b) || LexLess(b, a)
    ensures !(LexLess(a, b) && LexLess(b, a))
    ensures !LexLess(a, a)
    decreases |a|
  {
    if |a| > 0 && |b| > 0 && a[0] == b[0] {
      LexLessTrichotomy(a[1..], b[1..]);
      if a[1..] == b[1..] {
        assert a == [a[0]] + a[1..] && b == [b[0]] + b[1..];
      }
    } else if |a| > 0 {
      LexLessIrreflexive(a);
    }
  }

  lemma {:induction false} LexLessIrreflexive(a: string)
    ensures !LexLess(a, a)
    decreases |a|
  {
    if |a| > 0 {
      LexLessIrreflexive(a[1..]);
    }
  }
}
