/** Decimal numbers as they cross the system: a JavaScript number with at most two
    fraction digits (`Num`, kept as a count of hundredths), its `toString` text, the
    text Postgres prints for a `numeric(10,2)` value, and the parser both texts go
    back through. */
module Decimal {
  import opened Base
  import opened Text

  /** A JavaScript number whose value is `hundredths / 100`. */
  datatype Num = Num(hundredths: int)

  function Whole(n: int): Num { Num(n * 100) }

  predicate IsWhole(n: Num) { n.hundredths % 100 == 0 }

  predicate IsDigit(c: char) { '0' <= c <= '9' }

  predicate AllDigits(s: string) { forall i :: 0 <= i < |s| ==> IsDigit(s[i]) }

  function DigitChar(d: nat): (c: char)
    requires d < 10
    ensures IsDigit(c) && c as int - '0' as int == d
  {
    ('0' as int + d) as char
  }

  function DigitValue(c: char): (d: nat)
    requires IsDigit(c)
    ensures d < 10 && DigitChar(d) == c
  {
    c as int - '0' as int
  }

  /** Decimal digits of `n`, without leading zeros. */
  function NatText(n: nat): (r: string)
    ensures |r| >= 1 && AllDigits(r)
  {
    if n < 10 then [DigitChar(n)] else NatText(n / 10) + [DigitChar(n % 10)]
  }

  /** The value of a string of decimal digits. */
  function DigitsValue(s: string): nat
    requires AllDigits(s)
  {
    if s == [] then 0 else DigitsValue(s[..|s| - 1]) * 10 + DigitValue(s[|s| - 1])
  }

  lemma {:induction false} DigitsValueOfNatText(n: nat)
    ensures DigitsValue(NatText(n)) == n
  {
    if n >= 10 {
      var s := NatText(n / 10) + [DigitChar(n % 10)];
      assert s[..|s| - 1] == NatText(n / 10);
      DigitsValueOfNatText(n / 10);
    }
  }

  function Abs(n: int): nat { if n < 0 then -n else n }

  function Sign(n: int): string { if n < 0 then "-" else "" }

  /** How Postgres prints a `numeric(10,2)` value of `h` hundredths: always two fraction digits. */
  function NumericText(h: int): (t: string)
    ensures |t| >= 4 && t[|t| - 3] == '.' && IsDigit(t[|t| - 2]) && IsDigit(t[|t| - 1])
    ensures t[0] == '-' <==> h < 0
  {
    var a := Abs(h);
    Sign(h) + NatText(a / 100) + "." + [DigitChar(a % 100 / 10), DigitChar(a % 10)]
  }

  /** JavaScript's `Number.prototype.toString` for `n`: no fraction part for a whole
      number and no trailing zero in the fraction. */
  function NumberText(n: Num): (t: string)
    ensures |t| >= 1
    ensures t[0] == '-' <==> n.hundredths < 0
    ensures '.' in t <==> !IsWhole(n)
    ensures !IsWhole(n) ==> t[|t| - 1] != '0'
  {
    var u := UnsignedNumberText(Abs(n.hundredths));
    assert '.' in Sign(n.hundredths) + u <==> '.' in u;
    Sign(n.hundredths) + u
  }

  function UnsignedNumberText(a: nat): (u: string)
    ensures |u| >= 1 && IsDigit(u[0])
    ensures '.' in u <==> a % 100 != 0
    ensures a % 100 != 0 ==> u[|u| - 1] != '0'
  {
    NoDotInDigits(NatText(a / 100));
    var f := a % 100;
    NatText(a / 100)
      + (if f == 0 then ""
         else if f % 10 == 0 then "." + [DigitChar(f / 10)]
         else "." + [DigitChar(f / 10), DigitChar(f % 10)])
  }

  /** Reads an optional `-`, one or more digits, and optionally a `.` followed by one
      or two digits; the value is returned in hundredths. */
  function ParseNumeric(s: string): (r: Option<int>)
    ensures r.Some? ==> |s| > 0 && (s[0] == '-' || IsDigit(s[0]))
    ensures r.Some? ==> (r.value < 0 ==> s[0] == '-') && (s[0] == '-' ==> r.value <= 0)
  {
    if |s| > 0 && s[0] == '-' then
      match ParseUnsigned(s[1..])
      case None => None
      case Some(v) => Some(-(v as int))
    else
      match ParseUnsigned(s)
      case None => None
      case Some(v) =>
        UnsignedStartsWithDigit(s);
        Some(v)
  }

  function ParseUnsigned(s: string): Option<nat>
  {
    var ip := BeforeFirst(s, '.');
    if ip == [] || !AllDigits(ip) then None
    else if |ip| == |s| then Some(DigitsValue(ip) * 100)
    else
      var fp := s[|ip| + 1..];
      if 1 <= |fp| <= 2 && AllDigits(fp) then
        Some(DigitsValue(ip) * 100 + (if |fp| == 1 then DigitsValue(fp) * 10 else DigitsValue(fp)))
      else None
  }

  lemma NoDotInDigits(s: string)
    requires AllDigits(s)
    ensures '.' !in s && '-' !in s
  {
  }

  lemma TwoDigits(d1: nat, d2: nat)
    requires d1 < 10 && d2 < 10
    ensures DigitsValue([DigitChar(d1), DigitChar(d2)]) == d1 * 10 + d2
  {
    var fp := [DigitChar(d1), DigitChar(d2)];
    assert fp[..|fp| - 1] == [DigitChar(d1)];
    assert DigitValue(fp[1]) == d2;
    var one := [DigitChar(d1)];
    assert one[..|one| - 1] == [];
    assert DigitsValue(one) == d1;
  }

  lemma UnsignedWithFraction(n: nat, fp: string)
    requires 1 <= |fp| <= 2 && AllDigits(fp)
    ensures ParseUnsigned(NatText(n) + "." + fp)
         == Some(n * 100 + (if |fp| == 1 then DigitsValue(fp) * 10 else DigitsValue(fp)))
  {
    var s := NatText(n) + "." + fp;
    NoDotInDigits(NatText(n));
    BeforeFirstOfJoin(NatText(n), '.', fp);
    assert s == NatText(n) + ['.'] + fp;
    assert s[|NatText(n)| + 1..] == fp;
    DigitsValueOfNatText(n);
  }

  lemma UnsignedWhole(n: nat)
    ensures ParseUnsigned(NatText(n)) == Some(n * 100)
  {
    NoDotInDigits(NatText(n));
    BeforeFirstWithout(NatText(n), '.');
    DigitsValueOfNatText(n);
  }

  lemma ParseSigned(h: int, u: string)
    requires ParseUnsigned(u) == Some(Abs(h))
    ensures ParseNumeric(Sign(h) + u) == Some(h)
  {
    if h < 0 {
      assert (Sign(h) + u)[1..] == u;
    } else {
      UnsignedStartsWithDigit(u);
      assert Sign(h) + u == u;
    }
  }

  /** Text the unsigned parser accepts starts with a digit, so it carries no sign. */
  lemma UnsignedStartsWithDigit(u: string)
    requires ParseUnsigned(u).Some?
    ensures |u| > 0 && IsDigit(u[0])
  {
    var ip := BeforeFirst(u, '.');
    assert ip[0] == u[0];
  }

  /** Postgres's output for a stored weight reads back as the same value. */
  lemma NumericTextRoundTrip(h: int)
    ensures ParseNumeric(NumericText(h)) == Some(h)
  {
    var a := Abs(h);
    var u := NatText(a / 100) + "." + [DigitChar(a % 100 / 10), DigitChar(a % 10)];
    UnsignedNumericText(a);
    ParseSigned(h, u);
    assert NumericText(h) == Sign(h) + u;
  }

  lemma UnsignedNumericText(a: nat)
    ensures ParseUnsigned(NatText(a / 100) + "." + [DigitChar(a % 100 / 10), DigitChar(a % 10)]) == Some(a)
  {
    var d1, d2 := a % 100 / 10, a % 10;
    HundredthsDigits(a);
    TwoDigits(d1, d2);
    UnsignedWithFraction(a / 100, [DigitChar(d1), DigitChar(d2)]);
  }

  /** The last two decimal digits of `a` and what lies above them. */
  lemma HundredthsDigits(a: nat)
    ensures a % 100 / 10 < 10 && a % 10 < 10
    ensures a == a / 100 * 100 + a % 100 / 10 * 10 + a % 10
  {
    var q, r := a / 100, a % 100;
    assert a == q * 100 + r;
    assert r == r / 10 * 10 + r % 10;
    assert a == (q * 10 + r / 10) * 10 + r % 10;
    assert a % 10 == r % 10;
  }

  /** The text `toString` gives a number reads back as the same number. */
  lemma NumberTextRoundTrip(n: Num)
    ensures ParseNumeric(NumberText(n)) == Some(n.hundredths)
  {
    UnsignedNumberTextRoundTrip(Abs(n.hundredths));
    ParseSigned(n.hundredths, UnsignedNumberText(Abs(n.hundredths)));
  }

  lemma UnsignedNumberTextRoundTrip(a: nat)
    ensures ParseUnsigned(UnsignedNumberText(a)) == Some(a)
  {
    if a % 100 == 0 {
      WholeNumberText(a);
    } else if a % 100 % 10 == 0 {
      OneDigitNumberText(a);
    } else {
      TwoDigitNumberText(a);
    }
  }

  lemma WholeNumberText(a: nat)
    requires a % 100 == 0
    ensures ParseUnsigned(UnsignedNumberText(a)) == Some(a)
  {
    assert UnsignedNumberText(a) == NatText(a / 100);
    UnsignedWhole(a / 100);
  }

  lemma OneDigitNumberText(a: nat)
    requires a % 100 != 0 && a % 100 % 10 == 0
    ensures ParseUnsigned(UnsignedNumberText(a)) == Some(a)
  {
    var q, f := a / 100, a % 100;
    assert UnsignedNumberText(a) == NatText(q) + "." + [DigitChar(f / 10)];
    OneFractionDigit(q, f / 10);
    assert q * 100 + f / 10 * 10 == a;
  }

  lemma TwoDigitNumberText(a: nat)
    requires a % 100 % 10 != 0
    ensures ParseUnsigned(UnsignedNumberText(a)) == Some(a)
  {
    var q, f := a / 100, a % 100;
    var fp := [DigitChar(f / 10), DigitChar(f % 10)];
    assert UnsignedNumberText(a) == NatText(q) + "." + fp;
    TwoDigits(f / 10, f % 10);
    UnsignedWithFraction(q, fp);
    assert q * 100 + f == a;
  }

  lemma OneFractionDigit(q: nat, d: nat)
    requires d < 10
    ensures ParseUnsigned(NatText(q) + "." + [DigitChar(d)]) == Some(q * 100 + d * 10)
  {
    var fp := [DigitChar(d)];
    assert fp[..|fp| - 1] == [];
    assert DigitsValue(fp) == d;
    UnsignedWithFraction(q, fp);
  }
}
