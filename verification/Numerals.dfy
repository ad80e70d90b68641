/** The grammar of the numbers that the C library's scanner reads, written down independently of the
    scanner: what texts are numbers, and of what value. */
module Numerals {
  import opened Decimal
  import opened NumberScanner

  // A sign, "0x" for a hexadecimal number, digits, a point and digits behind it, and an exponent, of
  // which the mark, the sign and the digits are kept apart. What is missing is empty.
  datatype Numeral = Numeral(
    sign: string, prefix: string, whole: string, point: bool, fraction: string,
    mark: string, expSign: string, expDigits: string)

  function Point(n: Numeral): string {
    if n.point then "." else ""
  }

  function Text(n: Numeral): string {
    n.sign + (n.prefix + (n.whole + (Point(n) + (n.fraction + (n.mark + (n.expSign + n.expDigits))))))
  }

  predicate IsHexadecimal(n: Numeral) {
    |n.prefix| > 0
  }

  predicate AllDigits(s: string, hex: bool) {
    forall i :: 0 <= i < |s| ==> IsDigitChar(s[i], hex)
  }

  predicate IsDigitChar(c: char, hex: bool) {
    '0' <= c <= '9' || (hex && ('a' <= c <= 'f' || 'A' <= c <= 'F'))
  }

  predicate IsSignChar(c: char) {
    c == '+' || c == '-'
  }

  // "e" or "E", and "p" or "P" in hexadecimal.
  predicate IsMarkChar(c: char, hex: bool) {
    if hex then c == 'p' || c == 'P' else c == 'e' || c == 'E'
  }

  predicate IsSignText(s: string) {
    |s| <= 1 && (|s| == 1 ==> IsSignChar(s[0]))
  }

  predicate IsMinus(s: string) {
    s != "" && s[0] == '-'
  }

  // Nothing, "0x" or "0X".
  predicate IsPrefixText(s: string) {
    s != "" ==> |s| == 2 && s[0] == '0' && (s[1] == 'x' || s[1] == 'X')
  }

  predicate IsNumeral(n: Numeral) {
    && IsSignText(n.sign) && IsPrefixText(n.prefix)
    && AllDigits(n.whole, IsHexadecimal(n)) && AllDigits(n.fraction, IsHexadecimal(n))
    && n.whole + n.fraction != "" && (!n.point ==> n.fraction == "")
    && HasExponent(n)
  }

  predicate HasExponent(n: Numeral) {
    if n.mark == "" then n.expSign == "" && n.expDigits == ""
    else
      && |n.mark| == 1 && IsMarkChar(n.mark[0], IsHexadecimal(n))
      && IsSignText(n.expSign) && n.expDigits != "" && AllDigits(n.expDigits, false)
  }

  // The value, without dividing: digits behind the point are tenths, or sixteenths, and the exponent
  // is one of 10, or of 2.
  ghost predicate IsValueOf(v: real, n: Numeral)
    requires IsNumeral(n)
  {
    var hex := IsHexadecimal(n);
    var digits := n.whole + n.fraction;
    var magnitude := if hex then HexValue(digits) else DigitsValue(digits);
    var signed := if IsMinus(n.sign) then -(magnitude as real) else magnitude as real;
    var behind := Power(if hex then 16 else 10, |n.fraction|) as real;
    var scale := Power(if hex then 2 else 10, DigitsValue(n.expDigits)) as real;
    Relates(v, behind, scale, IsMinus(n.expSign), signed)
  }

  predicate Relates(v: real, behind: real, scale: real, down: bool, signed: real) {
    if down then v * behind * scale == signed else v * behind == signed * scale
  }

  // --- Powers --------------------------------------------------------------------------------------------

  lemma {:induction false} PowerSum(base: nat, m: nat, n: nat)
    requires base > 0
    ensures Power(base, m + n) == Power(base, m) * Power(base, n)
  {
    if m > 0 {
      PowerSum(base, m - 1, n);
      assert base * (Power(base, m - 1) * Power(base, n)) == (base * Power(base, m - 1)) * Power(base, n);
    }
  }

  lemma {:induction false} PowersOfSixteen(k: nat)
    ensures Power(2, 4 * k) == Power(16, k)
  {
    if k > 0 {
      PowersOfSixteen(k - 1);
      PowerSum(2, 4, 4 * (k - 1));
      assert Power(2, 4) == 2 * Power(2, 3) == 4 * Power(2, 2) == 8 * Power(2, 1) == 16 * Power(2, 0) == 16;
    }
  }

  // A one with n zeros is ten to the n.
  lemma {:induction false} TenToThe(n: nat)
    ensures AllDigits("1" + seq(n, i => '0'), false) && DigitsValue("1" + seq(n, i => '0')) == Power(10, n)
  {
    var s := "1" + seq(n, i => '0');
    if n == 0 {
      assert s == "1" && s[..0] == "";
    } else {
      TenToThe(n - 1);
      assert s[..n] == "1" + seq(n - 1, i => '0');
    }
  }

  // A hexadecimal one with n zeros is sixteen to the n.
  lemma {:induction false} SixteenToThe(n: nat)
    ensures AllDigits("1" + seq(n, i => '0'), true) && HexValue("1" + seq(n, i => '0')) == Power(16, n)
  {
    var s := "1" + seq(n, i => '0');
    if n == 0 {
      assert s == "1" && s[..0] == "";
    } else {
      SixteenToThe(n - 1);
      assert s[..n] == "1" + seq(n - 1, i => '0');
    }
  }

  // The sixteen digits stand for 0 to 15, in small and in capital letters.
  lemma {:induction false} HexDigitIs(i: nat)
    requires i < 16
    ensures IsDigitOf("0123456789abcdef"[i], true) && HexDigit("0123456789abcdef"[i]) == i
    ensures IsDigitOf("0123456789ABCDEF"[i], true) && HexDigit("0123456789ABCDEF"[i]) == i
  {
  }

  // A quotient, multiplied out.
  lemma {:induction false} DividedBack(m: real, a: real, b: real, w: real, v: real)
    requires w != 0.0 && w == a * b && v == m / w
    ensures v * a * b == m
  {
    assert v * w == m;
    assert v * a * b == v * (a * b);
  }

  lemma {:induction false} RealProduct(a: nat, b: nat, w: nat)
    requires w == a * b
    ensures w as real == a as real * b as real
  {
  }

  lemma {:induction false} ScaledByWhole(m: nat, base: nat, e: nat, x: nat, k: nat)
    requires base > 0 && e + k == x
    ensures Relates(Scaled(m, base, e), Power(base, k) as real, Power(base, x) as real, false, m as real)
  {
    var p, a := Power(base, e), Power(base, k);
    PowerSum(base, e, k);
    RealProduct(m, p, m * p);
    RealProduct(p, a, Power(base, x));
    assert m as real * p as real * a as real == m as real * (p as real * a as real);
  }

  lemma {:induction false} ScaledByFraction(m: nat, base: nat, e: nat, x: nat, k: nat)
    requires base > 0 && k == e + x && e > 0
    ensures Relates(m as real / Power(base, e) as real, Power(base, k) as real, Power(base, x) as real, false, m as real)
  {
    var p, b := Power(base, e), Power(base, x);
    var v := m as real / p as real;
    PowerSum(base, e, x);
    RealProduct(p, b, Power(base, k));
    assert v * p as real == m as real;
    assert v * (p as real * b as real) == v * p as real * b as real;
  }

  // A magnitude scaled by an exponent e: x, up or down, less k for the digits behind the point.
  lemma {:induction false} ScaledUp(m: nat, base: nat, e: int, x: nat, k: nat)
    requires base > 0 && e + k == x
    ensures Relates(Scaled(m, base, e), Power(base, k) as real, Power(base, x) as real, false, m as real)
  {
    if e >= 0 { ScaledByWhole(m, base, e, x, k); } else { ScaledByFraction(m, base, -e, x, k); }
  }

  lemma {:induction false} DividedByProduct(m: nat, a: nat, b: nat, w: nat)
    requires w > 0 && w == a * b
    ensures Relates(m as real / w as real, a as real, b as real, true, m as real)
  {
    RealProduct(a, b, w);
    DividedBack(m as real, a as real, b as real, w as real, m as real / w as real);
  }

  lemma {:induction false} ScaledDown(m: nat, base: nat, e: int, x: nat, k: nat)
    requires base > 0 && e + x + k == 0
    ensures Relates(Scaled(m, base, e), Power(base, k) as real, Power(base, x) as real, true, m as real)
  {
    if e == 0 {
      assert Power(base, 0) == 1 && Scaled(m, base, e) == m as real;
    } else {
      PowerSum(base, k, x);
      DividedByProduct(m, Power(base, k), Power(base, x), Power(base, -e));
    }
  }

  // --- Texts of the grammar are read whole -------------------------------------------------------------------

  // The exponent of a numeral.
  function Shift(n: Numeral): int
    requires IsNumeral(n)
  {
    var e: int := DigitsValue(n.expDigits);
    if IsMinus(n.expSign) then -e else e
  }

  // What a scan of the whole numeral should make of it: its value without the sign.
  function Magnitude(n: Numeral): Number
    requires IsNumeral(n)
  {
    Value(n.whole + n.fraction, |n.fraction|, Shift(n), IsHexadecimal(n))
  }

  function Signed(n: Numeral): Number
    requires IsNumeral(n)
  {
    if IsMinus(n.sign) then Negated(Magnitude(n)) else Magnitude(n)
  }

  lemma {:induction false} NegatedRelates(v: real, behind: real, scale: real, down: bool, signed: real)
    requires Relates(v, behind, scale, down, signed)
    ensures Relates(-v, behind, scale, down, -signed)
  {
    assert -v * behind == -(v * behind);
    if down { assert -(v * behind) * scale == -(v * behind * scale); } else { assert -signed * scale == -(signed * scale); }
  }

  lemma {:induction false} HexadecimalValue(n: Numeral)
    requires IsNumeral(n) && !IsMinus(n.sign) && IsHexadecimal(n)
    ensures Magnitude(n).Finite? && IsValueOf(Magnitude(n).value, n)
  {
    var digits, k, x := n.whole + n.fraction, |n.fraction|, DigitsValue(n.expDigits);
    PowersOfSixteen(k);
    if IsMinus(n.expSign) {
      ScaledDown(HexValue(digits), 2, 0 - x - 4 * k, x, 4 * k);
    } else {
      ScaledUp(HexValue(digits), 2, x - 4 * k, x, 4 * k);
    }
  }

  lemma {:induction false} DecimalValue(n: Numeral)
    requires IsNumeral(n) && !IsMinus(n.sign) && !IsHexadecimal(n)
    ensures Magnitude(n).Finite? && IsValueOf(Magnitude(n).value, n)
  {
    var digits, k, x := n.whole + n.fraction, |n.fraction|, DigitsValue(n.expDigits);
    if IsMinus(n.expSign) {
      ScaledDown(DigitsValue(digits), 10, 0 - x - k, x, k);
    } else {
      ScaledUp(DigitsValue(digits), 10, x - k, x, k);
    }
  }

  lemma {:induction false} UnsignedValue(n: Numeral)
    requires IsNumeral(n) && !IsMinus(n.sign)
    ensures Magnitude(n).Finite? && IsValueOf(Magnitude(n).value, n)
  {
    if IsHexadecimal(n) { HexadecimalValue(n); } else { DecimalValue(n); }
  }

  lemma {:induction false} ValueOfMagnitude(n: Numeral)
    requires IsNumeral(n)
    ensures Signed(n).Finite? && IsValueOf(Signed(n).value, n)
  {
    if IsMinus(n.sign) {
      var u := n.(sign := "");
      UnsignedValue(u);
      var magnitude := if IsHexadecimal(n) then HexValue(n.whole + n.fraction) else DigitsValue(n.whole + n.fraction);
      NegatedRelates(Magnitude(n).value, Power(if IsHexadecimal(n) then 16 else 10, |n.fraction|) as real,
                     Power(if IsHexadecimal(n) then 2 else 10, DigitsValue(n.expDigits)) as real, IsMinus(n.expSign),
                     magnitude as real);
    } else {
      UnsignedValue(n);
    }
  }

  // Where the parts of a numeral end in a text.
  datatype Layout = Layout(sign: nat, prefix: nat, whole: nat, point: nat, fraction: nat, mark: nat, expSign: nat)

  predicate InOrder(s: string, at: Layout) {
    at.sign <= at.prefix <= at.whole <= at.point <= at.fraction <= at.mark <= at.expSign <= |s|
  }

  predicate IsHexLayout(at: Layout) {
    at.sign < at.prefix
  }

  predicate DigitsFrom(s: string, i: nat, e: nat, hex: bool)
    requires e <= |s|
  {
    forall k :: i <= k < e ==> IsDigitChar(s[k], hex)
  }

  predicate BeginLaid(s: string, at: Layout)
    requires InOrder(s, at)
  {
    && (at.sign == 0 || (at.sign == 1 && IsSignChar(s[0])))
    && (at.prefix == at.sign
        || (at.prefix == at.sign + 2 && s[at.sign] == '0' && (s[at.sign + 1] == 'x' || s[at.sign + 1] == 'X')))
  }

  predicate DigitsLaid(s: string, at: Layout)
    requires InOrder(s, at)
  {
    && DigitsFrom(s, at.prefix, at.whole, IsHexLayout(at)) && DigitsFrom(s, at.point, at.fraction, IsHexLayout(at))
    && (if at.whole < at.point then at.point == at.whole + 1 && s[at.whole] == '.' else at.fraction == at.point)
    && (at.prefix < at.whole || at.point < at.fraction)
  }

  predicate ExponentLaid(s: string, at: Layout)
    requires InOrder(s, at)
  {
    if at.fraction == at.mark then at.fraction == |s|
    else
      && at.mark == at.fraction + 1 && IsMarkChar(s[at.fraction], IsHexLayout(at))
      && (at.expSign == at.mark || (at.expSign == at.mark + 1 && IsSignChar(s[at.mark])))
      && at.expSign < |s| && DigitsFrom(s, at.expSign, |s|, false)
  }

  // Between these ends the text has what the grammar wants there.
  predicate Laid(s: string, at: Layout) {
    InOrder(s, at) && BeginLaid(s, at) && DigitsLaid(s, at) && ExponentLaid(s, at)
  }

  function NumeralOf(s: string, at: Layout): Numeral
    requires InOrder(s, at)
  {
    Numeral(s[..at.sign], s[at.sign..at.prefix], s[at.prefix..at.whole], at.whole < at.point, s[at.point..at.fraction],
            s[at.fraction..at.mark], s[at.mark..at.expSign], s[at.expSign..])
  }

  // --- A layout and its numeral --------------------------------------------------------------------------------

  lemma {:induction false} DigitsOfSlice(s: string, i: nat, e: nat, hex: bool)
    requires i <= e <= |s|
    ensures AllDigits(s[i..e], hex) <==> DigitsFrom(s, i, e, hex)
  {
    if AllDigits(s[i..e], hex) {
      forall k | i <= k < e ensures IsDigitChar(s[k], hex) { assert s[k] == s[i..e][k - i]; }
    }
  }

  lemma {:induction false} Glue(s: string, i: nat, j: nat)
    requires i <= j <= |s|
    ensures s[i..] == s[i..j] + s[j..]
  {
  }

  lemma {:induction false} EndIsText(s: string, at: Layout)
    requires InOrder(s, at)
    ensures s[at.point..] == s[at.point..at.fraction] + (s[at.fraction..at.mark] + (s[at.mark..at.expSign] + s[at.expSign..]))
  {
    Glue(s, at.mark, at.expSign);
    Glue(s, at.fraction, at.mark);
    Glue(s, at.point, at.fraction);
  }

  lemma {:induction false} FrontIsText(s: string, at: Layout)
    requires InOrder(s, at)
    ensures s == s[..at.sign] + (s[at.sign..at.prefix] + (s[at.prefix..at.whole] + (s[at.whole..at.point] + s[at.point..])))
  {
    Glue(s, at.whole, at.point);
    Glue(s, at.prefix, at.whole);
    Glue(s, at.sign, at.prefix);
    Glue(s, 0, at.sign);
    assert s[0..] == s && s[0..at.sign] == s[..at.sign];
  }

  lemma {:induction false} PointIsText(s: string, at: Layout)
    requires InOrder(s, at) && DigitsLaid(s, at)
    ensures s[at.whole..at.point] == if at.whole < at.point then "." else ""
  {
  }

  lemma {:induction false} LaidIsText(s: string, at: Layout)
    requires Laid(s, at)
    ensures Text(NumeralOf(s, at)) == s
  {
    EndIsText(s, at);
    FrontIsText(s, at);
    PointIsText(s, at);
  }

  lemma {:induction false} LaidIsNumeral(s: string, at: Layout)
    requires Laid(s, at)
    ensures IsNumeral(NumeralOf(s, at)) && IsHexadecimal(NumeralOf(s, at)) == IsHexLayout(at)
  {
    DigitsOfSlice(s, at.prefix, at.whole, IsHexLayout(at));
    DigitsOfSlice(s, at.point, at.fraction, IsHexLayout(at));
    DigitsOfSlice(s, at.expSign, |s|, false);
    assert s[at.expSign..|s|] == s[at.expSign..];
  }

  function LayoutOf(n: Numeral): Layout {
    var prefix := |n.sign| + |n.prefix|;
    var point := prefix + |n.whole| + |Point(n)|;
    var mark := point + |n.fraction| + |n.mark|;
    Layout(|n.sign|, prefix, prefix + |n.whole|, point, point + |n.fraction|, mark, mark + |n.expSign|)
  }

  lemma {:induction false} Cut(s: string, i: nat, a: string, b: string)
    requires i <= |s| && s[i..] == a + b
    ensures i + |a| <= |s| && s[i..i + |a|] == a && s[i + |a|..] == b
  {
    assert s[i..][..|a|] == a && s[i..][|a|..] == b;
  }

  lemma {:induction false} EndIsLaidOut(s: string, i: nat, fraction: string, mark: string, sign: string, digits: string)
    requires i <= |s| && s[i..] == fraction + (mark + (sign + digits))
    ensures var j := i + |fraction|;
            var k := j + |mark|;
            && k + |sign| <= |s| && s[i..j] == fraction && s[j..k] == mark
            && s[k..k + |sign|] == sign && s[k + |sign|..] == digits
  {
    Cut(s, i, fraction, mark + (sign + digits));
    Cut(s, i + |fraction|, mark, sign + digits);
    Cut(s, i + |fraction| + |mark|, sign, digits);
  }

  lemma {:induction false} FrontIsLaidOut(s: string, sign: string, prefix: string, whole: string, point: string, rest: string)
    requires s == sign + (prefix + (whole + (point + rest)))
    ensures var i := |sign| + |prefix|;
            var j := i + |whole|;
            && j + |point| <= |s| && s[..|sign|] == sign && s[|sign|..i] == prefix
            && s[i..j] == whole && s[j..j + |point|] == point && s[j + |point|..] == rest
  {
    assert s[0..] == s && s[0..|sign|] == s[..|sign|];
    Cut(s, 0, sign, prefix + (whole + (point + rest)));
    Cut(s, |sign|, prefix, whole + (point + rest));
    Cut(s, |sign| + |prefix|, whole, point + rest);
    Cut(s, |sign| + |prefix| + |whole|, point, rest);
  }

  lemma {:induction false} FrontOfText(s: string, at: Layout, n: Numeral)
    requires s == Text(n) && at == LayoutOf(n)
    ensures InOrder(s, at) && s[..at.sign] == n.sign && s[at.sign..at.prefix] == n.prefix
    ensures s[at.prefix..at.whole] == n.whole && s[at.whole..at.point] == Point(n)
    ensures s[at.point..] == n.fraction + (n.mark + (n.expSign + n.expDigits))
  {
    FrontIsLaidOut(s, n.sign, n.prefix, n.whole, Point(n), n.fraction + (n.mark + (n.expSign + n.expDigits)));
  }

  lemma {:induction false} EndOfText(s: string, at: Layout, n: Numeral)
    requires InOrder(s, at) && at == LayoutOf(n) && s[at.point..] == n.fraction + (n.mark + (n.expSign + n.expDigits))
    ensures s[at.point..at.fraction] == n.fraction && s[at.fraction..at.mark] == n.mark
    ensures s[at.mark..at.expSign] == n.expSign && s[at.expSign..] == n.expDigits
  {
    EndIsLaidOut(s, at.point, n.fraction, n.mark, n.expSign, n.expDigits);
  }

  lemma {:induction false} TextIsOfNumeral(n: Numeral)
    ensures InOrder(Text(n), LayoutOf(n)) && NumeralOf(Text(n), LayoutOf(n)) == n
    ensures Text(n)[LayoutOf(n).whole..LayoutOf(n).point] == Point(n)
  {
    FrontOfText(Text(n), LayoutOf(n), n);
    EndOfText(Text(n), LayoutOf(n), n);
    assert LayoutOf(n).whole < LayoutOf(n).point <==> n.point;
  }

  lemma {:induction false} SliceChars(s: string, i: nat, e: nat)
    requires i <= e <= |s|
    ensures |s[i..e]| == e - i && forall k :: 0 <= k < e - i ==> s[i..e][k] == s[i + k]
  {
  }

  lemma {:induction false} NumeralBeginLaid(s: string, at: Layout)
    requires InOrder(s, at) && IsNumeral(NumeralOf(s, at))
    ensures BeginLaid(s, at) && IsHexadecimal(NumeralOf(s, at)) == IsHexLayout(at)
  {
    SliceChars(s, 0, at.sign);
    SliceChars(s, at.sign, at.prefix);
    assert s[0..at.sign] == s[..at.sign];
  }

  lemma {:induction false} NumeralDigitsLaid(s: string, at: Layout)
    requires InOrder(s, at) && IsNumeral(NumeralOf(s, at))
    requires s[at.whole..at.point] == (if at.whole < at.point then "." else "")
    ensures DigitsLaid(s, at)
  {
    SliceChars(s, at.whole, at.point);
    DigitsOfSlice(s, at.prefix, at.whole, IsHexLayout(at));
    DigitsOfSlice(s, at.point, at.fraction, IsHexLayout(at));
  }

  lemma {:induction false} NumeralExponentLaid(s: string, at: Layout)
    requires InOrder(s, at) && IsNumeral(NumeralOf(s, at))
    ensures ExponentLaid(s, at)
  {
    SliceChars(s, at.fraction, at.mark);
    SliceChars(s, at.mark, at.expSign);
    assert s[at.expSign..|s|] == s[at.expSign..];
    DigitsOfSlice(s, at.expSign, |s|, false);
  }

  lemma {:induction false} NumeralIsLaid(n: Numeral)
    requires IsNumeral(n)
    ensures Laid(Text(n), LayoutOf(n)) && NumeralOf(Text(n), LayoutOf(n)) == n
  {
    TextIsOfNumeral(n);
    NumeralBeginLaid(Text(n), LayoutOf(n));
    NumeralDigitsLaid(Text(n), LayoutOf(n));
    NumeralExponentLaid(Text(n), LayoutOf(n));
  }

  // --- What is laid out is read whole --------------------------------------------------------------------------

  lemma {:induction false} DigitsEndAt(s: string, i: nat, e: nat, hex: bool)
    requires i <= e <= |s| && DigitsFrom(s, i, e, hex) && !IsDigitOf(At(s, e), hex)
    ensures DigitsEnd(s, i, hex) == e
    decreases e - i
  {
    if i < e { DigitsEndAt(s, i + 1, e, hex); }
  }

  // What is behind the digits is no digit, no point and no x, and behind the whole part there is a
  // point only if the numeral has one.
  lemma {:induction false} BehindFraction(s: string, at: Layout)
    requires Laid(s, at)
    ensures !IsDigitOf(At(s, at.fraction), IsHexLayout(at)) && At(s, at.fraction) !in {'.', 'x', 'X'}
  {
  }

  lemma {:induction false} BehindWhole(s: string, at: Layout)
    requires Laid(s, at)
    ensures !IsDigitOf(At(s, at.whole), IsHexLayout(at)) && At(s, at.whole) !in {'x', 'X'}
    ensures At(s, at.whole) == '.' <==> at.whole < at.point
  {
    BehindFraction(s, at);
  }

  lemma {:induction false} FractionIsRead(s: string, at: Layout)
    requires Laid(s, at)
    ensures DigitsEnd(s, at.prefix, IsHexLayout(at)) == at.whole
    ensures FractionEnd(s, at.whole, IsHexLayout(at)) == at.fraction
    ensures (if at.fraction > at.whole then s[at.whole + 1..at.fraction] else "") == s[at.point..at.fraction]
  {
    BehindWhole(s, at);
    BehindFraction(s, at);
    DigitsEndAt(s, at.prefix, at.whole, IsHexLayout(at));
    if at.whole < at.point { DigitsEndAt(s, at.point, at.fraction, IsHexLayout(at)); }
  }

  lemma {:induction false} ExponentAt(s: string, i: nat, digits: nat, hex: bool)
    requires i < |s| && IsMarkChar(s[i], hex) && digits < |s| && DigitsFrom(s, digits, |s|, false)
    requires digits == i + 1 || (digits == i + 2 && IsSignChar(s[i + 1]))
    ensures AllDigits(s[digits..], false)
    ensures var e: int := DigitsValue(s[digits..]);
            Exponent(s, i, hex) == (if digits == i + 2 && s[i + 1] == '-' then -e else e, |s|)
  {
    assert s[digits..|s|] == s[digits..];
    DigitsEndAt(s, digits, |s|, false);
    assert IsDigitChar(s[digits], false);
  }

  lemma {:induction false} ExponentIsRead(s: string, at: Layout, n: Numeral)
    requires Laid(s, at) && n == NumeralOf(s, at) && IsNumeral(n)
    ensures Exponent(s, at.fraction, IsHexLayout(at)) == (Shift(n), |s|)
  {
    if at.fraction < at.mark {
      ExponentAt(s, at.fraction, at.expSign, IsHexLayout(at));
      assert IsMinus(n.expSign) <==> at.expSign == at.fraction + 2 && s[at.mark] == '-';
    }
  }

  // A scan put together from its parts.
  lemma {:induction false} UnsignedFrom(s: string, i: nat, hex: bool, p: nat, end: nat, whole: string, fraction: string,
                                        e: int)
    requires i <= |s| && DigitsEnd(s, i, hex) == p && s[i..p] == whole
    requires AllDigits(whole + fraction, hex) && whole + fraction != ""
    requires FractionEnd(s, p, hex) == end && (if end > p then s[p + 1..end] else "") == fraction
    requires Exponent(s, end, hex) == (e, |s|)
    ensures Unsigned(s, i, hex) == Number(Value(whole + fraction, |fraction|, e, hex), |s|)
  {
  }

  lemma {:induction false} DigitsOf(n: Numeral)
    requires IsNumeral(n)
    ensures AllDigits(n.whole + n.fraction, IsHexadecimal(n)) && n.whole + n.fraction != ""
  {
  }

  lemma {:induction false} UnsignedIsRead(s: string, at: Layout, n: Numeral)
    requires Laid(s, at) && n == NumeralOf(s, at) && IsNumeral(n) && IsHexadecimal(n) == IsHexLayout(at)
    ensures Unsigned(s, at.prefix, IsHexadecimal(n)) == Number(Magnitude(n), |s|)
  {
    FractionIsRead(s, at);
    ExponentIsRead(s, at, n);
    DigitsOf(n);
    UnsignedFrom(s, at.prefix, IsHexadecimal(n), at.whole, at.fraction, n.whole, n.fraction, Shift(n));
  }

  // A numeral begins with a digit or a point, and has an x behind it only in its prefix.
  lemma {:induction false} FirstChar(s: string, at: Layout)
    requires Laid(s, at)
    ensures at.sign < |s| && (IsDigit(s[at.sign]) || s[at.sign] == '.')
    ensures !IsHexLayout(at) && at.sign + 1 < |s| ==> s[at.sign + 1] !in {'x', 'X'}
  {
    BehindWhole(s, at);
    BehindFraction(s, at);
  }

  lemma {:induction false} StartsHexIs(s: string, i: nat)
    ensures StartsHex(s, i) <==> i + 2 <= |s| && s[i] == '0' && (s[i + 1] == 'x' || s[i + 1] == 'X')
  {
    if i + 2 <= |s| {
      var t := s[i..i + 2];
      assert t[0] == s[i] && t[1] == s[i + 1];
      assert IsWord(t, "0x") <==> Lower(t[0]) == '0' && Lower(t[1]) == 'x';
    }
  }

  lemma {:induction false} PrefixIsRead(s: string, at: Layout)
    requires Laid(s, at)
    ensures StartsHex(s, at.sign) <==> IsHexLayout(at)
  {
    FirstChar(s, at);
    StartsHexIs(s, at.sign);
  }

  lemma {:induction false} NoWord(s: string, i: nat)
    requires i < |s| && (IsDigit(s[i]) || s[i] == '.')
    ensures Body(s, i) == AnyUnsigned(s, i)
  {
    NotThisWord(s, i, "infinity");
    NotThisWord(s, i, "inf");
    NotThisWord(s, i, "nan");
  }

  lemma {:induction false} BodyIsRead(s: string, at: Layout, n: Numeral)
    requires Laid(s, at) && n == NumeralOf(s, at) && IsNumeral(n) && IsHexadecimal(n) == IsHexLayout(at)
    ensures Body(s, at.sign) == Number(Magnitude(n), |s|)
  {
    FirstChar(s, at);
    PrefixIsRead(s, at);
    UnsignedIsRead(s, at, n);
    NoWord(s, at.sign);
  }

  lemma {:induction false} SignIsRead(s: string, at: Layout)
    requires Laid(s, at)
    ensures s != "" && !IsSpace(s[0]) && SignEnd(s, 0) == at.sign
    ensures At(s, 0) == '-' <==> IsMinus(s[..at.sign])
  {
    FirstChar(s, at);
  }

  lemma {:induction false} LaidIsRead(s: string, at: Layout)
    requires Laid(s, at)
    ensures IsNumeral(NumeralOf(s, at)) && Token(s, 0) == Number(Signed(NumeralOf(s, at)), |s|)
    ensures s != "" && !IsSpace(s[0])
  {
    LaidIsNumeral(s, at);
    SignIsRead(s, at);
    BodyIsRead(s, at, NumeralOf(s, at));
  }

  lemma {:induction false} StrtodIsToken(s: string)
    requires s != "" && !IsSpace(s[0])
    ensures Strtod(s) == Token(s, 0)
  {
    SpaceEndIs(s, 0);
    assert s[0..] == s;
  }

  lemma {:induction false} TextIsRead(n: Numeral)
    requires IsNumeral(n)
    ensures Strtod(Text(n)) == Number(Signed(n), |Text(n)|)
  {
    NumeralIsLaid(n);
    LaidIsRead(Text(n), LayoutOf(n));
    StrtodIsToken(Text(n));
  }

  // Every text of the grammar is read whole, as a number of its value.
  lemma {:induction false} NumeralIsRead(n: Numeral) returns (v: real)
    requires IsNumeral(n)
    ensures Strtod(Text(n)) == Number(Finite(v), |Text(n)|) && IsValueOf(v, n)
  {
    TextIsRead(n);
    ValueOfMagnitude(n);
    v := Signed(n).value;
  }

  // --- ... and nothing else is ------------------------------------------------------------------------------

  ghost predicate IsNumeralText(t: string) {
    exists n :: IsNumeral(n) && t == Text(n)
  }

  predicate IsName(s: string) {
    forall i :: 0 <= i < |s| ==>
      '0' <= s[i] <= '9' || 'a' <= s[i] <= 'z' || 'A' <= s[i] <= 'Z' || s[i] == '_'
  }

  // "nan", and maybe a name in parentheses.
  predicate IsNanText(t: string) {
    |t| >= 3 && IsWord(t[..3], "nan")
    && (|t| == 3 || (|t| >= 5 && t[3] == '(' && t[|t| - 1] == ')' && IsName(t[4..|t| - 1])))
  }

  predicate IsUnsignedWord(t: string) {
    IsWord(t, "inf") || IsWord(t, "infinity") || IsNanText(t)
  }

  predicate IsWordText(t: string) {
    IsUnsignedWord(t) || (t != "" && (t[0] == '+' || t[0] == '-') && IsUnsignedWord(t[1..]))
  }

  lemma {:induction false} DigitsRead(s: string, i: nat, hex: bool)
    requires i <= |s|
    ensures DigitsFrom(s, i, DigitsEnd(s, i, hex), hex)
  {
    forall k | i <= k < DigitsEnd(s, i, hex) ensures IsDigitChar(s[k], hex) { assert IsDigitOf(s[k], hex); }
  }

  // The parts of an exponent that goes to the end.
  lemma {:induction false} ExponentParts(s: string, i: nat, hex: bool) returns (mark: nat, digits: nat)
    requires i <= |s| && Exponent(s, i, hex).1 == |s|
    ensures i <= mark <= digits <= |s|
    ensures i == |s| || (mark == i + 1 && IsMarkChar(s[i], hex)
                         && (digits == mark || (digits == mark + 1 && IsSignChar(s[mark])))
                         && digits < |s| && DigitsFrom(s, digits, |s|, false))
  {
    mark, digits := i, i;
    if i < |s| {
      mark, digits := i + 1, SignEnd(s, i + 1);
      DigitsRead(s, digits, false);
    }
  }

  // The parts before it.
  lemma {:induction false} FractionParts(s: string, i: nat, hex: bool) returns (whole: nat, point: nat, end: nat)
    requires i <= |s| && Unsigned(s, i, hex).Number?
    ensures i <= whole <= point <= end <= |s| && DigitsFrom(s, i, whole, hex) && DigitsFrom(s, point, end, hex)
    ensures if whole < point then point == whole + 1 && s[whole] == '.' else end == point
    ensures i < whole || point < end
    ensures Unsigned(s, i, hex).end == Exponent(s, end, hex).1
  {
    whole := DigitsEnd(s, i, hex);
    end := FractionEnd(s, whole, hex);
    point := if At(s, whole) == '.' then whole + 1 else whole;
    DigitsRead(s, i, hex);
    if At(s, whole) == '.' { DigitsRead(s, point, hex); }
  }

  lemma {:induction false} WholeUnsigned(s: string, sign: nat, i: nat, hex: bool)
    requires sign <= i <= |s| && Unsigned(s, i, hex).Number? && Unsigned(s, i, hex).end == |s|
    requires sign == 0 || (sign == 1 && IsSignChar(s[0]))
    requires if hex then i == sign + 2 && s[sign] == '0' && (s[sign + 1] == 'x' || s[sign + 1] == 'X') else sign == i
    ensures IsNumeralText(s)
  {
    var whole, point, fraction := FractionParts(s, i, hex);
    var mark, expSign := ExponentParts(s, fraction, hex);
    var at := Layout(sign, i, whole, point, fraction, mark, expSign);
    LaidIsNumeral(s, at);
    LaidIsText(s, at);
  }

  // --- Words ------------------------------------------------------------------------------------------------

  lemma {:induction false} WordIs(s: string, i: nat, word: string)
    requires i <= |s|
    ensures HasWord(s, i, word) && i + |word| == |s| <==> IsWord(s[i..], word)
  {
    if i + |word| == |s| { assert s[i..i + |word|] == s[i..]; }
  }

  lemma {:induction false} NameEndIs(s: string, i: nat, e: nat)
    requires i <= e <= |s| && IsName(s[i..e]) && !IsNameChar(At(s, e))
    ensures NameEnd(s, i) == e
    decreases e - i
  {
    if i < e {
      assert s[i..e][0] == s[i] && s[i + 1..e] == s[i..e][1..];
      NameEndIs(s, i + 1, e);
    }
  }

  // A NaN that goes to the end.
  lemma {:induction false} NanIs(s: string, i: nat)
    requires i <= |s|
    ensures HasWord(s, i, "nan") && NanEnd(s, i + 3) == |s| <==> IsNanText(s[i..])
  {
    var t := s[i..];
    if i + 3 <= |s| { assert s[i..i + 3] == t[..3]; }
    if HasWord(s, i, "nan") && NanEnd(s, i + 3) == |s| && |t| > 3 {
      var e := NameEnd(s, i + 4);
      var name := t[4..|t| - 1];
      assert name == s[i + 4..e];
      forall k | 0 <= k < |name| ensures IsNameChar(name[k]) { assert name[k] == s[i + 4 + k]; }
      assert t[3] == s[i + 3] && t[|t| - 1] == s[e];
    }
    if IsNanText(t) && |t| > 3 {
      assert t[4..|t| - 1] == s[i + 4..|s| - 1];
      assert t[3] == s[i + 3] && t[|t| - 1] == s[|s| - 1];
      NameEndIs(s, i + 4, |s| - 1);
    }
  }

  // An unsigned word is read as infinity or as no number, and nothing that is no word is.
  lemma {:induction false} BodyWords(s: string, i: nat)
    requires i <= |s|
    ensures IsUnsignedWord(s[i..]) ==> Body(s, i).Number? && Body(s, i).end == |s| && !Body(s, i).number.Finite?
    ensures Body(s, i).Number? && Body(s, i).end == |s| && !IsUnsignedWord(s[i..]) ==> Body(s, i) == AnyUnsigned(s, i)
  {
    WordIs(s, i, "infinity");
    WordIs(s, i, "inf");
    NanIs(s, i);
    if IsUnsignedWord(s[i..]) {
      assert Lower(s[i]) == 'i' || Lower(s[i]) == 'n' by {
        assert s[i..][0] == s[i] && (|s[i..]| >= 3 ==> s[i..][..3][0] == s[i]);
      }
      if HasWord(s, i, "infinity") { assert s[i..i + 8][0] == s[i]; }
      if HasWord(s, i, "inf") { assert s[i..i + 3][0] == s[i]; }
      if HasWord(s, i, "nan") { assert s[i..i + 3][0] == s[i]; }
    }
  }

  // --- The grammar is what the scanner reads whole --------------------------------------------------------------

  ghost predicate IsNumberText(t: string) {
    IsNumeralText(t) || IsWordText(t)
  }

  lemma {:induction false} NumeralToken(t: string)
    requires IsNumeralText(t)
    ensures Token(t, 0).Number? && Token(t, 0).end == |t| && !IsSpace(At(t, 0)) && t != ""
  {
    var n :| IsNumeral(n) && t == Text(n);
    NumeralIsLaid(n);
    LaidIsRead(t, LayoutOf(n));
  }

  lemma {:induction false} WordToken(t: string)
    requires IsWordText(t)
    ensures Token(t, 0).Number? && Token(t, 0).end == |t| && !IsSpace(At(t, 0)) && t != ""
  {
    assert t[0..] == t;
    BodyWords(t, 0);
    if IsUnsignedWord(t) {
      WordBegins(t);
    } else {
      BodyWords(t, 1);
    }
  }

  // "inf" and "infinity" are infinite, of the sign in front; the rest is no number.
  lemma {:induction false} WordIsRead(sign: string, t: string)
    requires IsSignText(sign) && IsUnsignedWord(t)
    ensures var scan := Strtod(sign + t);
            scan.Number? && scan.number == if IsNanText(t) then NotANumber else Infinite(IsMinus(sign))
  {
    var s := sign + t;
    WordBegins(t);
    assert s[|sign|..] == t && s[|sign|] == t[0];
    BodyIsWord(s, |sign|, t);
    SpaceEndIs(s, 0);
    assert s[0..] == s;
  }

  lemma {:induction false} BodyIsWord(s: string, i: nat, t: string)
    requires i <= |s| && s[i..] == t && IsUnsignedWord(t)
    ensures Body(s, i).Number? && Body(s, i).number == if IsNanText(t) then NotANumber else Infinite(false)
  {
    BodyWords(s, i);
    if IsNanText(t) {
      assert t[..3][0] == t[0] == s[i] && Lower(s[i]) == 'n';
      NotThisWord(s, i, "infinity");
      NotThisWord(s, i, "inf");
    } else {
      assert t[0] == s[i] && Lower(s[i]) == 'i';
      NotThisWord(s, i, "nan");
      if HasWord(s, i, "inf") { assert s[i..i + 3][0] == s[i]; }
      WordIs(s, i, "infinity");
      WordIs(s, i, "inf");
    }
  }

  lemma {:induction false} WordBegins(t: string)
    requires IsUnsignedWord(t)
    ensures t != "" && !IsSpace(t[0]) && t[0] != '+' && t[0] != '-'
  {
    if IsNanText(t) { assert t[..3][0] == t[0]; }
    assert Lower(t[0]) == 'i' || Lower(t[0]) == 'n';
  }

  lemma {:induction false} WholeToken(t: string)
    requires Token(t, 0).Number? && Token(t, 0).end == |t|
    ensures IsNumberText(t)
  {
    var i := SignEnd(t, 0);
    assert t[0..] == t && (i > 0 ==> t[..i] == [t[0]]);
    if IsUnsignedWord(t[i..]) {
      assert IsWordText(t);
    } else {
      BodyWords(t, i);
      if StartsHex(t, i) && Unsigned(t, i + 2, true).Number? {
        StartsHexIs(t, i);
        WholeUnsigned(t, i, i + 2, true);
      } else {
        WholeUnsigned(t, i, i, false);
      }
    }
  }

  // From k on the text is a number, and before it there are spaces.
  ghost predicate IsNumberFrom(s: string, k: nat)
    requires k <= |s|
  {
    IsNumberText(s[k..]) && forall i :: 0 <= i < k ==> s[i] == ' ' || '\t' <= s[i] <= '\r'
  }

  // A string is read whole, as one number, if and only if it is spaces and then a text of the grammar.
  lemma {:induction false} ReadWholeIffNumber(s: string)
    ensures Strtod(s).Number? && Strtod(s).end == |s| <==> exists k :: 0 <= k <= |s| && IsNumberFrom(s, k)
  {
    var start := SpaceEnd(s, 0);
    if Strtod(s).Number? && Strtod(s).end == |s| {
      WholeToken(s[start..]);
      assert IsNumberFrom(s, start);
    }
    if k :| 0 <= k <= |s| && IsNumberFrom(s, k) {
      if IsNumeralText(s[k..]) { NumeralToken(s[k..]); } else { WordToken(s[k..]); }
      assert s[k] == s[k..][0];
      SpaceEndIs(s, k);
    }
  }

  lemma {:induction false} NumeralBegins(n: Numeral)
    requires IsNumeral(n)
    ensures Text(n) != "" && !IsSpace(Text(n)[0])
  {
    NumeralIsLaid(n);
    LaidIsRead(Text(n), LayoutOf(n));
  }
}
