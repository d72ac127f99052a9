/** Numbers as JavaScript prints them: the text of a double, and why two doubles never share one. */
module Numerals {

  /** A number that is not NaN. A finite one other than zero is 0.d1d2…dk × 10^point, with the fewest decimal digits
      that identify it, as section 7.1.12.1 of ECMA-262 6th edition chooses them. */
  datatype Number =
    | Zero(negative: bool)
    | Infinity(negative: bool)
    | Finite(negative: bool, digits: Digits, point: int)

  predicate AllDigits(s: string) {
    forall i :: 0 <= i < |s| ==> '0' <= s[i] <= '9'
  }

  type Digits = s: string | s != "" && AllDigits(s) && s[0] != '0' && s[|s| - 1] != '0' witness "1"

  function Zeros(n: nat): (s: string)
    ensures |s| == n && forall i :: 0 <= i < n ==> s[i] == '0'
  {
    if n == 0 then "" else Zeros(n - 1) + "0"
  }

  /** The decimal notation of a natural number. */
  function Decimal(n: nat): (s: string)
    ensures s != "" && AllDigits(s)
  {
    if n < 10 then [DigitChar(n)] else Decimal(n / 10) + [DigitChar(n % 10)]
  }

  function DigitChar(d: nat): (c: char)
    requires d < 10
    ensures '0' <= c <= '9'
  {
    '0' + d as char
  }

  /** A finite positive number, in the four layouts of section 7.1.12.1. */
  function FiniteText(digits: Digits, point: int): string {
    if |digits| <= point <= 21 then digits + Zeros(point - |digits|)
    else if 0 < point <= 21 then digits[..point] + "." + digits[point..]
    else if -6 < point <= 0 then "0." + Zeros(-point) + digits
    else Mantissa(digits) + "e" + Exponent(point - 1)
  }

  function Mantissa(digits: Digits): string {
    if |digits| == 1 then digits else digits[..1] + "." + digits[1..]
  }

  function Exponent(x: int): string {
    if x >= 0 then "+" + Decimal(x) else "-" + Decimal(-x)
  }

  function Text(n: Number): string {
    match n
    case Zero(_) => "0"
    case Infinity(negative) => Signed(negative, "Infinity")
    case Finite(negative, digits, point) => Signed(negative, FiniteText(digits, point))
  }

  function Signed(negative: bool, s: string): string {
    if negative then "-" + s else s
  }

  // ----- reading a text back

  /** The position of `c`, or the length when there is none. */
  function Find(s: string, c: char): (i: nat)
    ensures i <= |s|
  {
    if s == "" || s[0] == c then 0 else 1 + Find(s[1..], c)
  }

  lemma {:induction false} FindAfter(p: string, c: char, q: string)
    requires c !in p
    ensures Find(p + [c] + q, c) == |p|
  {
    if p == "" {
      assert p + [c] + q == [c] + q;
    } else {
      assert (p + [c] + q)[1..] == p[1..] + [c] + q;
      FindAfter(p[1..], c, q);
    }
  }

  lemma {:induction false} FindNone(p: string, c: char)
    requires c !in p
    ensures Find(p, c) == |p|
  {
    if p != "" { FindNone(p[1..], c); }
  }

  function LeadingZeros(s: string): (n: nat)
    ensures n <= |s|
  {
    if s == "" || s[0] != '0' then 0 else 1 + LeadingZeros(s[1..])
  }

  function StripTrailing(s: string): string {
    if s == "" || s[|s| - 1] != '0' then s else StripTrailing(s[..|s| - 1])
  }

  function ReadDecimal(s: string): int
  {
    if s == "" then 0 else 10 * ReadDecimal(s[..|s| - 1]) + (s[|s| - 1] as int - '0' as int)
  }

  function ReadExponent(s: string): int {
    if s == "" then 0
    else if s[0] == '-' then -ReadDecimal(s[1..])
    else ReadDecimal(s[1..])
  }

  datatype Parsed = Parsed(digits: string, point: int)

  /** Reads a numeral: the digits around the point without outer zeros, and where the point lies. */
  function ReadPlain(s: string, exponent: int): Parsed {
    var dot := Find(s, '.');
    if dot < |s| then ReadParts(s[..dot], s[dot + 1..], exponent) else ReadParts(s, "", exponent)
  }

  function ReadParts(whole: string, part: string, exponent: int): Parsed {
    var all := whole + part;
    var z := LeadingZeros(all);
    Parsed(StripTrailing(all[z..]), |whole| - z + exponent)
  }

  function Read(s: string): Parsed {
    var e := Find(s, 'e');
    if e < |s| then ReadPlain(s[..e], ReadExponent(s[e + 1..])) else ReadPlain(s, 0)
  }

  lemma {:induction false} DecimalRead(n: nat)
    ensures ReadDecimal(Decimal(n)) == n
  {
    if n >= 10 {
      DecimalRead(n / 10);
      assert Decimal(n)[..|Decimal(n)| - 1] == Decimal(n / 10);
    }
  }

  lemma {:induction false} StripZeros(d: string, n: nat)
    requires d == "" || d[|d| - 1] != '0'
    ensures StripTrailing(d + Zeros(n)) == d
  {
    if n == 0 {
      assert d + Zeros(n) == d;
    } else {
      assert (d + Zeros(n))[..|d| + n - 1] == d + Zeros(n - 1);
      StripZeros(d, n - 1);
    }
  }

  lemma {:induction false} SkipZeros(n: nat, d: Digits)
    ensures LeadingZeros(Zeros(n) + d) == n
  {
    if n > 0 {
      assert (Zeros(n) + d)[1..] == Zeros(n - 1) + d;
      SkipZeros(n - 1, d);
    }
  }

  /** Digits with the point among or before them. */
  lemma ReadSplit(whole: string, part: string, z: nat, digits: Digits, exponent: int)
    requires '.' !in whole && whole + part == Zeros(z) + digits
    ensures ReadPlain(whole + "." + part, exponent) == Parsed(digits, |whole| - z + exponent)
  {
    var s := whole + "." + part;
    FindAfter(whole, '.', part);
    assert s[..|whole|] == whole && s[|whole| + 1..] == part;
    SkipZeros(z, digits);
    assert (Zeros(z) + digits)[z..] == digits;
  }

  /** Digits and zeros without a point. */
  lemma ReadWhole(digits: Digits, n: nat, exponent: int)
    ensures ReadPlain(digits + Zeros(n), exponent) == Parsed(digits, |digits| + n + exponent)
  {
    var s := digits + Zeros(n);
    FindNone(s, '.');
    assert s + "" == s && s[0..] == s;
    StripZeros(digits, n);
  }

  lemma NoExponent(s: string)
    requires 'e' !in s
    ensures Read(s) == ReadPlain(s, 0)
  {
    FindNone(s, 'e');
  }

  /** The text of a finite number determines its digits and its point. */
  lemma ReadBack(digits: Digits, point: int)
    ensures Read(FiniteText(digits, point)) == Parsed(digits, point)
  {
    if 0 < point <= 21 {
      ReadPlainText(digits, point);
    } else if -6 < point <= 0 {
      ReadFraction(digits, -point);
    } else {
      ReadScientific(digits, point);
    }
  }

  lemma ReadPlainText(digits: Digits, point: nat)
    requires 0 < point <= 21
    ensures Read(FiniteText(digits, point)) == Parsed(digits, point)
  {
    NoExponent(FiniteText(digits, point));
    if |digits| <= point {
      ReadWhole(digits, point - |digits|, 0);
    } else {
      assert digits[..point] + digits[point..] == Zeros(0) + digits;
      ReadSplit(digits[..point], digits[point..], 0, digits, 0);
    }
  }

  lemma ReadFraction(digits: Digits, zeros: nat)
    ensures Read("0." + Zeros(zeros) + digits) == Parsed(digits, 0 - zeros)
  {
    var part := Zeros(zeros) + digits;
    assert "0." + Zeros(zeros) + digits == "0." + part;
    NoExponent("0." + part);
    ReadFractionDigits(digits, zeros, part);
  }

  lemma ReadFractionDigits(digits: Digits, zeros: nat, part: string)
    requires part == Zeros(zeros) + digits
    ensures ReadPlain("0." + part, 0) == Parsed(digits, 0 - zeros)
  {
    ZerosFront(zeros);
    assert "0" + part == Zeros(zeros + 1) + digits;
    assert "0." + part == "0" + "." + part;
    ReadSplit("0", part, zeros + 1, digits, 0);
  }

  lemma ZerosFront(n: nat)
    ensures Zeros(n + 1) == "0" + Zeros(n)
  {
  }

  lemma ReadScientific(digits: Digits, point: int)
    ensures Read(Mantissa(digits) + "e" + Exponent(point - 1)) == Parsed(digits, point)
  {
    var m, x := Mantissa(digits), Exponent(point - 1);
    var s := m + "e" + x;
    FindAfter(m, 'e', x);
    assert s[..|m|] == m && s[|m| + 1..] == x;
    ReadExponentBack(point - 1);
    ReadMantissa(digits, point - 1);
  }

  lemma ReadExponentBack(x: int)
    ensures ReadExponent(Exponent(x)) == x
  {
    DecimalRead(if x >= 0 then x else -x);
    assert Exponent(x)[1..] == Decimal(if x >= 0 then x else -x);
  }

  lemma ReadMantissa(digits: Digits, exponent: int)
    ensures ReadPlain(Mantissa(digits), exponent) == Parsed(digits, exponent + 1)
  {
    if |digits| == 1 {
      assert digits + Zeros(0) == digits;
      ReadWhole(digits, 0, exponent);
    } else {
      assert digits[..1] + digits[1..] == Zeros(0) + digits;
      ReadSplit(digits[..1], digits[1..], 0, digits, exponent);
    }
  }

  lemma FirstIsDigit(digits: Digits, point: int)
    ensures FiniteText(digits, point) != "" && '0' <= FiniteText(digits, point)[0] <= '9'
  {
  }

  /** Two numbers have the same text exactly when they are equal, the two zeros being one. */
  lemma TextInjective(a: Number, b: Number)
    ensures Text(a) == Text(b) <==> a == b || (a.Zero? && b.Zero?)
  {
    if a.Finite? && b.Finite? {
      FiniteInjective(a.negative, a.digits, a.point, b.negative, b.digits, b.point);
    } else if a.Finite? {
      FiniteOther(a, b);
    } else if b.Finite? {
      FiniteOther(b, a);
    } else {
      InfinityApart(a, b);
    }
  }

  lemma FiniteOther(a: Number, b: Number)
    requires a.Finite? && !b.Finite?
    ensures Text(a) != Text(b)
  {
    FiniteApart(a.negative, a.digits, a.point);
    OtherTexts(b);
  }

  lemma OtherTexts(b: Number)
    requires !b.Finite?
    ensures Text(b) == "0" || Text(b) == "-Infinity" || (Text(b) != "" && Text(b)[0] > '9')
  {
  }

  lemma InfinityApart(a: Number, b: Number)
    requires !a.Finite? && !b.Finite?
    ensures Text(a) == Text(b) <==> a == b || (a.Zero? && b.Zero?)
  {
  }

  lemma FiniteInjective(a: bool, s: Digits, m: int, b: bool, t: Digits, n: int)
    ensures Signed(a, FiniteText(s, m)) == Signed(b, FiniteText(t, n)) <==> a == b && s == t && m == n
  {
    FirstIsDigit(s, m);
    FirstIsDigit(t, n);
    SignedInjective(a, FiniteText(s, m), b, FiniteText(t, n));
    ReadBack(s, m);
    ReadBack(t, n);
  }

  lemma SignedInjective(a: bool, s: string, b: bool, t: string)
    requires s != "" && t != "" && s[0] != '-' && t[0] != '-'
    ensures Signed(a, s) == Signed(b, t) <==> a == b && s == t
  {
    assert ("-" + s)[1..] == s && ("-" + t)[1..] == t;
  }

  /** No finite number but zero prints as zero, as an infinity, or as a text that starts with a letter. */
  lemma FiniteApart(negative: bool, digits: Digits, point: int)
    ensures var s := Text(Finite(negative, digits, point)); s != "" && s[0] <= '9' && s != "0" && s != "-Infinity"
  {
    FirstIsDigit(digits, point);
    var t := FiniteText(digits, point);
    if negative {
      assert ("-" + t)[1] == t[0] && "-Infinity"[1] == 'I';
    } else if t == "0" {
      ReadBack(digits, point);
      ReadZero();
    }
  }

  lemma ReadZero()
    ensures Read("0").digits == ""
  {
  }
}
