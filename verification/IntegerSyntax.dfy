/** The Integer recogniser (section 3.3.16 of RFC 4517) and the two range-checking validators. */
module IntegerSyntax {
  import opened Prelude
  import opened Regex
  import opened Rules

  const INTEGER := Alt(Cat(HYPHEN, Cat(LDIGIT, Star(DIGIT))), NUMBER)

  predicate IsInteger(input: seq<byte>) { Accepts(INTEGER, input) }

  /* ---- Decimal notation ---- */

  function Decimal(n: nat): seq<byte> {
    if n < 10 then [0x30 + n] else Decimal(n / 10) + [0x30 + n % 10]
  }

  /** The canonical text of an integer. */
  function Text(n: int): seq<byte> {
    if n < 0 then [0x2d] + Decimal(-n) else Decimal(n)
  }

  predicate IsDigit(b: byte) { 0x30 <= b <= 0x39 }

  predicate AllDigits(s: seq<byte>) { forall i | 0 <= i < |s| :: IsDigit(s[i]) }

  /** Digits without a superfluous leading zero. */
  predicate Canonical(s: seq<byte>) {
    s != [] && AllDigits(s) && (|s| > 1 ==> s[0] != 0x30)
  }

  function Value(s: seq<byte>): nat
    requires AllDigits(s)
  {
    if s == [] then 0 else Value(s[..|s| - 1]) * 10 + (s[|s| - 1] - 0x30)
  }

  lemma {:induction false} DecimalIsCanonical(n: nat)
    ensures Canonical(Decimal(n)) && Value(Decimal(n)) == n
    ensures n > 0 ==> Decimal(n)[0] != 0x30
  {
    if n >= 10 {
      DecimalIsCanonical(n / 10);
      assert Decimal(n)[..|Decimal(n)| - 1] == Decimal(n / 10);
    } else {
      assert [0x30 + n][..0] == [];
    }
  }

  lemma {:induction false} CanonicalIsDecimal(s: seq<byte>)
    requires Canonical(s)
    ensures Decimal(Value(s)) == s && (s[0] != 0x30 ==> Value(s) > 0)
    decreases |s|
  {
    var front := s[..|s| - 1];
    if front != [] {
      CanonicalIsDecimal(front);
      assert Value(s) / 10 == Value(front) && Value(s) % 10 == s[|s| - 1] - 0x30;
      assert s == front + [s[|s| - 1]];
    }
  }

  lemma TextParts(n: int)
    ensures var magnitude := if n < 0 then -n else n;
      && Canonical(Decimal(magnitude)) && Value(Decimal(magnitude)) == magnitude
      && (n != 0 ==> Decimal(magnitude)[0] != 0x30)
    ensures n < 0 ==> Text(n)[0] == 0x2d && Text(n)[1..] == Decimal(-n)
    ensures n >= 0 ==> Text(n) == Decimal(n) && Text(n)[0] != 0x2d
  {
    DecimalIsCanonical(if n < 0 then -n else n);
  }

  lemma TextIsInjective(m: int, n: int)
    ensures Text(m) == Text(n) ==> m == n
  {
    TextParts(m);
    TextParts(n);
  }

  function Pow10(k: nat): nat { if k == 0 then 1 else 10 * Pow10(k - 1) }

  lemma {:induction false} DecimalLength(n: nat, k: nat)
    requires k > 0 && n < Pow10(k)
    ensures |Decimal(n)| <= k
    decreases k
  {
    if n >= 10 { DecimalLength(n / 10, k - 1); }
  }

  /* ---- The language of the machine ---- */

  lemma DigitIff(s: seq<byte>)
    ensures Matches(DIGIT, s) <==> |s| == 1 && IsDigit(s[0])
  {
  }

  lemma {:induction false} DigitsIff(s: seq<byte>)
    ensures Matches(Star(DIGIT), s) <==> AllDigits(s)
    decreases |s|
  {
    if s != [] {
      if Matches(Star(DIGIT), s) {
        var x, y := StarElim(DIGIT, s);
        DigitIff(x);
        DigitsIff(y);
        assert y == s[1..];
        assert forall i | 1 <= i < |s| :: s[i] == y[i - 1];
      }
      if AllDigits(s) {
        DigitsIff(s[1..]);
        StarIntro(DIGIT, [s[0]], s[1..]);
        assert [s[0]] + s[1..] == s;
      }
    }
  }

  lemma NumberIff(s: seq<byte>)
    ensures Matches(NUMBER, s) <==> Canonical(s)
  {
    DigitIff(s);
    if Matches(Cat(LDIGIT, Plus(DIGIT)), s) {
      var x, y := CatElim(LDIGIT, Plus(DIGIT), s);
      var u, v := CatElim(DIGIT, Star(DIGIT), y);
      DigitIff(u);
      DigitsIff(v);
      assert s == [s[0]] + [s[1]] + v;
      assert forall i | 2 <= i < |s| :: s[i] == v[i - 2];
    }
    if Canonical(s) && |s| > 1 {
      DigitsIff(s[2..]);
      DigitIff([s[1]]);
      CatIntro(DIGIT, Star(DIGIT), [s[1]], s[2..]);
      CatIntro(LDIGIT, Plus(DIGIT), [s[0]], [s[1]] + s[2..]);
      assert [s[0]] + ([s[1]] + s[2..]) == s;
    }
  }

  predicate Negative(s: seq<byte>) {
    |s| > 1 && s[0] == 0x2d && Canonical(s[1..]) && s[1] != 0x30
  }

  lemma NegativeIff(s: seq<byte>)
    ensures Matches(Cat(HYPHEN, Cat(LDIGIT, Star(DIGIT))), s) <==> Negative(s)
  {
    if Matches(Cat(HYPHEN, Cat(LDIGIT, Star(DIGIT))), s) {
      var x, y := CatElim(HYPHEN, Cat(LDIGIT, Star(DIGIT)), s);
      var u, v := CatElim(LDIGIT, Star(DIGIT), y);
      DigitsIff(v);
      assert s[1..] == y && IsDigit(y[0]) && forall i | 1 <= i < |y| :: y[i] == v[i - 1];
    }
    if Negative(s) {
      var y := s[1..];
      DigitsIff(y[1..]);
      CatIntro(LDIGIT, Star(DIGIT), [y[0]], y[1..]);
      assert [y[0]] + y[1..] == y;
      CatIntro(HYPHEN, Cat(LDIGIT, Star(DIGIT)), [s[0]], y);
      assert [s[0]] + y == s;
    }
  }

  lemma IntegerIff(s: seq<byte>)
    ensures Matches(INTEGER, s) <==> exists n :: s == Text(n)
  {
    NumberIff(s);
    NegativeIff(s);
    if Canonical(s) {
      CanonicalIsDecimal(s);
      assert s == Text(Value(s));
    }
    if Negative(s) {
      CanonicalIsDecimal(s[1..]);
      assert s == Text(-(Value(s[1..]) as int));
    }
    if n :| s == Text(n) {
      TextParts(n);
    }
  }

  /** Every accepted text but "" and the lone hyphen is the text of an integer. */
  lemma AcceptedIffText(s: seq<byte>)
    ensures IsInteger(s) <==> s == [] || s == [0x2d] || exists n :: s == Text(n)
  {
    AcceptsIffViable(INTEGER, s);
    if IsInteger(s) {
      var t :| Matches(INTEGER, s + t);
      PrefixOfInteger(s, t);
    }
    if s == [] {
      IntegerIff(s + Text(0));
      assert s + Text(0) == Text(0);
    } else if s == [0x2d] {
      IntegerIff(s + [0x31]);
      assert s + [0x31] == Text(-1);
    } else if exists n :: s == Text(n) {
      IntegerIff(s);
      assert s + [] == s;
    }
  }

  lemma PrefixOfInteger(s: seq<byte>, t: seq<byte>)
    requires Matches(INTEGER, s + t)
    ensures s == [] || s == [0x2d] || exists n :: s == Text(n)
  {
    var w := s + t;
    NumberIff(w);
    NegativeIff(w);
    if |s| > 1 || (s != [] && Canonical(w)) {
      if Negative(w) {
        assert s[1..] == w[1..][..|s| - 1];
        assert Negative(s);
      } else {
        assert s == w[..|s|];
        assert Canonical(s);
      }
      NumberIff(s);
      NegativeIff(s);
      IntegerIff(s);
    }
  }

  /* ---- The validators ---- */

  datatype Conversion = Conversion(value: int, errno: bool)

  function LeadingDigits(s: seq<byte>): (d: seq<byte>)
    ensures d <= s && AllDigits(d) && (|d| == |s| || !IsDigit(s[|d|]))
  {
    if s == [] || !IsDigit(s[0]) then [] else [s[0]] + LeadingDigits(s[1..])
  }

  function Clamp(n: int, lo: int, hi: int): int { if n < lo then lo else if n > hi then hi else n }

  /** The C library's conversion of digits after an optional hyphen: out-of-range values are
      clamped and set errno; whether text without digits sets errno is the library's choice. */
  function Strtol(s: seq<byte>, lo: int, hi: int, flagsNoDigits: bool): Conversion {
    if s != [] && s[0] == 0x2d then Converted(LeadingDigits(s[1..]), -1, lo, hi, flagsNoDigits)
    else Converted(LeadingDigits(s), 1, lo, hi, flagsNoDigits)
  }

  function Converted(digits: seq<byte>, sign: int, lo: int, hi: int, flagsNoDigits: bool): Conversion
    requires AllDigits(digits)
  {
    if digits == [] then Conversion(0, flagsNoDigits)
    else
      var n := sign * Value(digits);
      Conversion(Clamp(n, lo, hi), n < lo || n > hi)
  }

  const INT_MIN := -0x8000_0000
  const INT_MAX := 0x7fff_ffff
  const LONG_MIN := -0x8000_0000_0000_0000
  const LONG_MAX := 0x7fff_ffff_ffff_ffff

  lemma {:induction false} LeadingDigitsOf(d: seq<byte>, zeros: seq<byte>)
    requires AllDigits(d) && (zeros != [] ==> !IsDigit(zeros[0]))
    ensures LeadingDigits(d + zeros) == d
    decreases |d|
  {
    if d == [] {
      assert d + zeros == zeros;
    } else {
      LeadingDigitsOf(d[1..], zeros);
      assert (d + zeros)[1..] == d[1..] + zeros;
    }
  }

  lemma StrtolOfNegative(d: seq<byte>, zeros: seq<byte>, lo: int, hi: int, flagsNoDigits: bool)
    requires AllDigits(d) && (zeros != [] ==> zeros[0] == 0)
    ensures Strtol([0x2d] + d + zeros, lo, hi, flagsNoDigits) == Converted(d, -1, lo, hi, flagsNoDigits)
  {
    LeadingDigitsOf(d, zeros);
    assert ([0x2d] + d + zeros)[1..] == d + zeros;
  }

  lemma StrtolOfPositive(d: seq<byte>, zeros: seq<byte>, lo: int, hi: int, flagsNoDigits: bool)
    requires d != [] && AllDigits(d) && (zeros != [] ==> zeros[0] == 0)
    ensures Strtol(d + zeros, lo, hi, flagsNoDigits) == Converted(d, 1, lo, hi, flagsNoDigits)
  {
    LeadingDigitsOf(d, zeros);
    assert (d + zeros)[0] == d[0] && IsDigit(d[0]);
  }

  lemma StrtolOfText(n: int, zeros: seq<byte>, lo: int, hi: int, flagsNoDigits: bool)
    requires zeros != [] ==> zeros[0] == 0
    ensures Strtol(Text(n) + zeros, lo, hi, flagsNoDigits) == Conversion(Clamp(n, lo, hi), n < lo || n > hi)
  {
    if n < 0 {
      DecimalIsCanonical(-n);
      StrtolOfNegative(Decimal(-n), zeros, lo, hi, flagsNoDigits);
    } else {
      DecimalIsCanonical(n);
      StrtolOfPositive(Decimal(n), zeros, lo, hi, flagsNoDigits);
    }
  }

  /** What both validators compute between the range given and the machine's answer. */
  ghost predicate InRangeText(s: seq<byte>, lo: int, hi: int) {
    exists n :: lo <= n <= hi && s == Text(n)
  }

  lemma IntTextFits(n: int)
    ensures INT_MIN <= n <= INT_MAX ==> |Text(n)| <= 11
    ensures LONG_MIN <= n <= LONG_MAX ==> |Text(n)| <= 20
  {
    var m := if n < 0 then -n else n;
    assert Pow10(10) == 1_00000_00000;
    assert Pow10(19) == 10000_00000_00000_00000;
    if m <= 0x8000_0000 { DecimalLength(m, 10); }
    if m <= 0x8000_0000_0000_0000 { DecimalLength(m, 19); }
  }

  method Copy(value: seq<byte>, size: nat) returns (buffer: array<byte>)
    requires |value| < size
    ensures fresh(buffer) && buffer[..] == value + seq(size - |value|, _ => 0)
  {
    buffer := new byte[size](_ => 0);
    for i := 0 to |value|
      invariant buffer[..i] == value[..i]
      invariant forall k | i <= k < size :: buffer[k] == 0
    {
      buffer[i] := value[i];
    }
  }

  lemma TextIsNeverBare(n: int)
    ensures Text(n) != [] && Text(n) != [0x2d]
  {
    DecimalIsCanonical(if n < 0 then -n else n);
  }

  /** The conversion of a non-empty accepted text in its zero-filled buffer. */
  lemma BufferConverted(s: seq<byte>, size: nat, lo: int, hi: int, flagsNoDigits: bool) returns (n: int)
    requires s != [] && |s| < size && IsInteger(s) && lo <= 0 <= hi
    ensures var c := Strtol(s + seq(size - |s|, _ => 0), lo, hi, flagsNoDigits);
      if s == [0x2d] then c == Conversion(0, flagsNoDigits)
      else s == Text(n) && c == Conversion(Clamp(n, lo, hi), n < lo || n > hi)
  {
    AcceptedIffText(s);
    var zeros: seq<byte> := seq(size - |s|, _ => 0);
    if s == [0x2d] {
      n := 0;
      assert (s + zeros)[1..] == zeros;
    } else {
      n :| s == Text(n);
      StrtolOfText(n, zeros, lo, hi, flagsNoDigits);
    }
  }

  lemma InRangeTextIff(s: seq<byte>, n: int, lo: int, hi: int)
    requires s == Text(n)
    ensures InRangeText(s, lo, hi) <==> lo <= n <= hi
  {
    if m :| lo <= m <= hi && s == Text(m) { TextIsInjective(m, n); }
  }

  /** In-range text is accepted by the machine, fits the buffer and is not a bare hyphen. */
  lemma InRangeTextPasses(s: seq<byte>, lo: int, hi: int)
    requires InRangeText(s, lo, hi)
    ensures s != [] && s != [0x2d] && IsInteger(s)
    ensures INT_MIN <= lo && hi <= INT_MAX ==> |s| <= 11
    ensures LONG_MIN <= lo && hi <= LONG_MAX ==> |s| <= 20
  {
    var n :| lo <= n <= hi && s == Text(n);
    TextIsNeverBare(n);
    AcceptedIffText(s);
    IntTextFits(n);
  }

  method ValidateInteger(value: Option<seq<byte>>, flagsNoDigits: bool) returns (ok: bool)
    ensures value.None? ==> !ok
    ensures value.Some? ==>
      (ok <==> InRangeText(value.value, -2147483648, 2147483647) || (value.value == [0x2d] && !flagsNoDigits))
  {
    if value.None? { return false; }
    var s := value.value;
    if InRangeText(s, INT_MIN, INT_MAX) { InRangeTextPasses(s, INT_MIN, INT_MAX); }
    if |s| == 0 { return false; }
    var buffer := new byte[12];
    if |s| >= buffer.Length { return false; }
    if IsInteger(s) {
      buffer := Copy(s, buffer.Length);
      var converted := Strtol(buffer[..], LONG_MIN, LONG_MAX, flagsNoDigits);
      ghost var n := BufferConverted(s, 12, LONG_MIN, LONG_MAX, flagsNoDigits);
      if s != [0x2d] { InRangeTextIff(s, n, INT_MIN, INT_MAX); }
      if converted.errno { return false; }
      if converted.value < INT_MIN || converted.value > INT_MAX { return false; }
      return true;
    }
    if s == [0x2d] { AcceptedIffText(s); }
    return false;
  }

  method ValidateLargeInteger(value: Option<seq<byte>>, flagsNoDigits: bool) returns (ok: bool)
    ensures value.None? ==> !ok
    ensures value.Some? ==>
      (ok <==> InRangeText(value.value, -9223372036854775808, 9223372036854775807) || (value.value == [0x2d] && !flagsNoDigits))
  {
    if value.None? { return false; }
    var s := value.value;
    if InRangeText(s, LONG_MIN, LONG_MAX) { InRangeTextPasses(s, LONG_MIN, LONG_MAX); }
    if |s| == 0 { return false; }
    var buffer := new byte[21];
    if |s| >= buffer.Length { return false; }
    if IsInteger(s) {
      buffer := Copy(s, buffer.Length);
      var converted := Strtol(buffer[..], LONG_MIN, LONG_MAX, flagsNoDigits);
      ghost var n := BufferConverted(s, 21, LONG_MIN, LONG_MAX, flagsNoDigits);
      if s != [0x2d] { InRangeTextIff(s, n, LONG_MIN, LONG_MAX); }
      if converted.errno { return false; }
      return true;
    }
    if s == [0x2d] { AcceptedIffText(s); }
    return false;
  }
}
