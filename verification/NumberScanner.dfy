/** The number scanner of the C library: decimal and hexadecimal numbers, infinity and NaN. The value
    is exact; rounding it to a double is not part of the model. */
module NumberScanner {
  import opened Decimal

  datatype Number = Finite(value: real) | Infinite(negative: bool) | NotANumber

  datatype Scan = NoNumber | Number(number: Number, end: nat)

  // The character at i of a string that ends in a zero byte.
  function At(s: string, i: nat): char {
    if i < |s| then s[i] else '\0'
  }

  predicate IsSpace(c: char) {
    c == ' ' || '\t' <= c <= '\r'
  }

  function SpaceEnd(s: string, i: nat): (e: nat)
    requires i <= |s|
    ensures i <= e <= |s|
    ensures forall k :: i <= k < e ==> IsSpace(s[k])
    ensures e < |s| ==> !IsSpace(s[e])
    decreases |s| - i
  {
    if i < |s| && IsSpace(s[i]) then SpaceEnd(s, i + 1) else i
  }

  function Lower(c: char): char {
    if 'A' <= c <= 'Z' then c - 'A' + 'a' else c
  }

  predicate IsDigitOf(c: char, hex: bool) {
    IsDigit(c) || (hex && 'a' <= Lower(c) <= 'f')
  }

  function DigitsEnd(s: string, i: nat, hex: bool): (e: nat)
    requires i <= |s|
    ensures i <= e <= |s|
    ensures forall k :: i <= k < e ==> IsDigitOf(s[k], hex)
    ensures !IsDigitOf(At(s, e), hex)
    decreases |s| - i
  {
    if i < |s| && IsDigitOf(s[i], hex) then DigitsEnd(s, i + 1, hex) else i
  }

  function HexDigit(c: char): nat
    requires IsDigitOf(c, true)
  {
    if IsDigit(c) then c as int - '0' as int else Lower(c) as int - 'a' as int + 10
  }

  function HexValue(s: string): nat
    requires forall i :: 0 <= i < |s| ==> IsDigitOf(s[i], true)
  {
    if s == [] then 0
    else
      assert IsDigitOf(s[|s| - 1], true);
      16 * HexValue(s[..|s| - 1]) + HexDigit(s[|s| - 1])
  }

  function Power(base: nat, n: nat): nat
    requires base > 0
    ensures Power(base, n) > 0
  {
    if n == 0 then 1 else base * Power(base, n - 1)
  }

  function Scaled(mantissa: nat, base: nat, exponent: int): real
    requires base > 0
  {
    if exponent >= 0 then (mantissa * Power(base, exponent)) as real
    else mantissa as real / Power(base, -exponent) as real
  }

  // The word stands at i, in small or capital letters.
  predicate HasWord(s: string, i: nat, word: string) {
    i + |word| <= |s| && IsWord(s[i..i + |word|], word)
  }

  predicate IsWord(t: string, word: string) {
    |t| == |word| && forall k :: 0 <= k < |word| ==> Lower(t[k]) == word[k]
  }

  predicate HasSign(s: string, i: nat) {
    At(s, i) == '-' || At(s, i) == '+'
  }

  function SignEnd(s: string, i: nat): (e: nat)
    requires i <= |s|
    ensures i <= e <= |s|
  {
    if HasSign(s, i) then i + 1 else i
  }

  // What begins an exponent.
  predicate IsMark(c: char, hex: bool) {
    Lower(c) == if hex then 'p' else 'e'
  }

  // The exponent that starts at i, if there is a whole one: its value and where it ends.
  function Exponent(s: string, i: nat, hex: bool): (r: (int, nat))
    requires i <= |s|
    ensures i <= r.1 <= |s|
  {
    if !IsMark(At(s, i), hex) then (0, i)
    else
      var digits := SignEnd(s, i + 1);
      var end := DigitsEnd(s, digits, false);
      if end == digits then (0, i)
      else
        var value: int := DigitsValue(s[digits..end]);
        (if At(s, i + 1) == '-' then -value else value, end)
  }

  // Where the digits after a point at i end, if there is a point.
  function FractionEnd(s: string, i: nat, hex: bool): (e: nat)
    requires i <= |s|
    ensures i <= e <= |s|
  {
    if At(s, i) == '.' then DigitsEnd(s, i + 1, hex) else i
  }

  // Digits, `fraction` of which are behind the point, and an exponent: of 10, or of 2 in hexadecimal.
  function Value(digits: string, fraction: nat, exponent: int, hex: bool): Number
    requires forall k :: 0 <= k < |digits| ==> IsDigitOf(digits[k], hex)
  {
    assert forall k :: 0 <= k < |digits| ==> IsDigitOf(digits[k], hex);
    if hex then Finite(Scaled(HexValue(digits), 2, exponent - 4 * fraction))
    else
      assert forall k :: 0 <= k < |digits| && IsDigitOf(digits[k], false) ==> IsDigit(digits[k]);
      Finite(Scaled(DigitsValue(digits), 10, exponent - fraction))
  }

  // Digits with or without a point among them, and an exponent.
  function Unsigned(s: string, i: nat, hex: bool): Scan
    requires i <= |s|
  {
    var point := DigitsEnd(s, i, hex);
    var end := FractionEnd(s, point, hex);
    var fraction := if end > point then s[point + 1..end] else "";
    var digits := s[i..point] + fraction;
    if digits == "" then NoNumber
    else
      var (exponent, e) := Exponent(s, end, hex);
      Number(Value(digits, |fraction|, exponent, hex), e)
  }

  predicate StartsHex(s: string, i: nat) {
    HasWord(s, i, "0x")
  }

  // "0x" and a hexadecimal number, or a decimal number, which may be the 0 before an x.
  function AnyUnsigned(s: string, i: nat): Scan
    requires i <= |s|
  {
    if StartsHex(s, i) && Unsigned(s, i + 2, true).Number? then Unsigned(s, i + 2, true) else Unsigned(s, i, false)
  }

  predicate IsNameChar(c: char) {
    IsDigit(c) || 'a' <= Lower(c) <= 'z' || c == '_'
  }

  function NameEnd(s: string, i: nat): (e: nat)
    requires i <= |s|
    ensures i <= e <= |s|
    ensures forall k :: i <= k < e ==> IsNameChar(s[k])
    decreases |s| - i
  {
    if i < |s| && IsNameChar(s[i]) then NameEnd(s, i + 1) else i
  }

  // Where a NaN ends whose letters end at i: after its name in parentheses, if it has one.
  function NanEnd(s: string, i: nat): (e: nat)
    requires i <= |s|
    ensures i <= e <= |s|
  {
    if At(s, i) == '(' && At(s, NameEnd(s, i + 1)) == ')' then NameEnd(s, i + 1) + 1 else i
  }

  function Negated(n: Number): Number {
    match n
    case Finite(value) => Finite(-value)
    case Infinite(negative) => Infinite(!negative)
    case NotANumber => NotANumber
  }

  // A number without a sign: a word or digits.
  function Body(s: string, i: nat): Scan
    requires i <= |s|
  {
    if HasWord(s, i, "infinity") then Number(Infinite(false), i + 8)
    else if HasWord(s, i, "inf") then Number(Infinite(false), i + 3)
    else if HasWord(s, i, "nan") then Number(NotANumber, NanEnd(s, i + 3))
    else AnyUnsigned(s, i)
  }

  // A number at i: a sign, and then the rest.
  function Token(s: string, i: nat): Scan
    requires i <= |s|
  {
    var scan := Body(s, SignEnd(s, i));
    if scan.Number? && At(s, i) == '-' then scan.(number := Negated(scan.number)) else scan
  }

  // Spaces, and then a number: what number, and where it ends.
  function Strtod(s: string): Scan {
    var start := SpaceEnd(s, 0);
    var scan := Token(s[start..], 0);
    if scan.NoNumber? then NoNumber else Number(scan.number, start + scan.end)
  }

  // --- What the scanner reads ----------------------------------------------------------------------------

  predicate IsTokenChar(c: char) {
    IsNameChar(c) || c == '+' || c == '-' || c == '.' || c == '(' || c == ')'
  }

  lemma {:induction false} WordChars(s: string, i: nat, word: string)
    requires HasWord(s, i, word) && forall k :: 0 <= k < |word| ==> IsNameChar(word[k]) && Lower(word[k]) == word[k]
    ensures forall k :: i <= k < i + |word| ==> IsTokenChar(s[k])
  {
    forall k | i <= k < i + |word| ensures IsTokenChar(s[k]) {
      assert Lower(s[i..i + |word|][k - i]) == word[k - i];
    }
  }

  lemma {:induction false} UnsignedChars(s: string, i: nat, hex: bool)
    requires i <= |s| && Unsigned(s, i, hex).Number?
    ensures i < Unsigned(s, i, hex).end <= |s|
    ensures forall k :: i <= k < Unsigned(s, i, hex).end ==> IsTokenChar(s[k])
  {
  }

  lemma {:induction false} AnyUnsignedChars(s: string, i: nat)
    requires i <= |s| && AnyUnsigned(s, i).Number?
    ensures i < AnyUnsigned(s, i).end <= |s|
    ensures forall k :: i <= k < AnyUnsigned(s, i).end ==> IsTokenChar(s[k])
  {
    if StartsHex(s, i) && Unsigned(s, i + 2, true).Number? {
      WordChars(s, i, "0x");
      UnsignedChars(s, i + 2, true);
    } else {
      UnsignedChars(s, i, false);
    }
  }

  // A number ends inside the string, and no space or comma is part of it.
  lemma {:induction false} TokenChars(s: string, i: nat)
    requires i <= |s| && Token(s, i).Number?
    ensures i < Token(s, i).end <= |s|
    ensures forall k :: i <= k < Token(s, i).end ==> IsTokenChar(s[k])
  {
    var j := SignEnd(s, i);
    if HasWord(s, j, "infinity") {
      WordChars(s, j, "infinity");
    } else if HasWord(s, j, "inf") {
      WordChars(s, j, "inf");
    } else if HasWord(s, j, "nan") {
      WordChars(s, j, "nan");
    } else {
      AnyUnsignedChars(s, j);
    }
  }

  lemma {:induction false} DigitsEndBefore(s: string, x: string, i: nat, hex: bool)
    requires i <= |s| && (x == "" || !IsTokenChar(x[0]))
    ensures DigitsEnd(s + x, i, hex) == DigitsEnd(s, i, hex)
    decreases |s| - i
  {
    if i < |s| && IsDigitOf(s[i], hex) { DigitsEndBefore(s, x, i + 1, hex); }
  }

  lemma {:induction false} NameEndBefore(s: string, x: string, i: nat)
    requires i <= |s| && (x == "" || !IsTokenChar(x[0]))
    ensures NameEnd(s + x, i) == NameEnd(s, i)
    decreases |s| - i
  {
    if i < |s| && IsNameChar(s[i]) { NameEndBefore(s, x, i + 1); }
  }

  lemma {:induction false} NanEndBefore(s: string, x: string, i: nat)
    requires i <= |s| && (x == "" || !IsTokenChar(x[0]))
    ensures NanEnd(s + x, i) == NanEnd(s, i)
  {
    if i < |s| && s[i] == '(' { NameEndBefore(s, x, i + 1); }
  }

  lemma {:induction false} WordBefore(s: string, x: string, i: nat, word: string)
    requires i <= |s| && (x == "" || !IsTokenChar(x[0]))
    requires forall k :: 0 <= k < |word| ==> IsNameChar(word[k]) && Lower(word[k]) == word[k]
    ensures HasWord(s + x, i, word) <==> HasWord(s, i, word)
  {
    if i + |word| <= |s| {
      assert (s + x)[i..i + |word|] == s[i..i + |word|];
    } else if i + |word| <= |s + x| {
      var k := |s| - i;
      assert (s + x)[i..i + |word|][k] == x[0];
      assert Lower(x[0]) != word[k];
    }
  }

  lemma {:induction false} SignBefore(s: string, x: string, i: nat)
    requires i <= |s| && (x == "" || !IsTokenChar(x[0]))
    ensures SignEnd(s + x, i) == SignEnd(s, i)
    ensures At(s + x, i) == '-' <==> At(s, i) == '-'
  {
  }

  lemma {:induction false} MarkBefore(s: string, x: string, i: nat, hex: bool)
    requires i <= |s| && (x == "" || !IsTokenChar(x[0]))
    ensures IsMark(At(s + x, i), hex) <==> IsMark(At(s, i), hex)
  {
  }

  lemma {:induction false} SliceBefore(s: string, x: string, i: nat, e: nat)
    requires i <= e <= |s|
    ensures (s + x)[i..e] == s[i..e]
  {
  }

  lemma {:induction false} ExponentBefore(s: string, x: string, i: nat, hex: bool)
    requires i <= |s| && (x == "" || !IsTokenChar(x[0]))
    ensures Exponent(s + x, i, hex) == Exponent(s, i, hex)
  {
    MarkBefore(s, x, i, hex);
    if IsMark(At(s, i), hex) {
      SignBefore(s, x, i + 1);
      var digits := SignEnd(s, i + 1);
      DigitsEndBefore(s, x, digits, false);
      var end := DigitsEnd(s, digits, false);
      SliceBefore(s, x, digits, end);
    }
  }

  lemma {:induction false} FractionEndBefore(s: string, x: string, i: nat, hex: bool)
    requires i <= |s| && (x == "" || !IsTokenChar(x[0]))
    ensures FractionEnd(s + x, i, hex) == FractionEnd(s, i, hex)
  {
    if i < |s| && s[i] == '.' { DigitsEndBefore(s, x, i + 1, hex); }
  }

  lemma {:induction false} UnsignedBefore(s: string, x: string, i: nat, hex: bool)
    requires i <= |s| && (x == "" || !IsTokenChar(x[0]))
    ensures Unsigned(s + x, i, hex) == Unsigned(s, i, hex)
  {
    DigitsEndBefore(s, x, i, hex);
    var point := DigitsEnd(s, i, hex);
    FractionEndBefore(s, x, point, hex);
    var end := FractionEnd(s, point, hex);
    SliceBefore(s, x, i, point);
    if end > point { SliceBefore(s, x, point + 1, end); }
    ExponentBefore(s, x, end, hex);
  }

  lemma {:induction false} AnyUnsignedBefore(s: string, x: string, i: nat)
    requires i <= |s| && (x == "" || !IsTokenChar(x[0]))
    ensures AnyUnsigned(s + x, i) == AnyUnsigned(s, i)
  {
    WordBefore(s, x, i, "0x");
    UnsignedBefore(s, x, i, false);
    if StartsHex(s, i) { UnsignedBefore(s, x, i + 2, true); }
  }

  lemma {:induction false} BodyBefore(s: string, x: string, i: nat)
    requires i <= |s| && (x == "" || !IsTokenChar(x[0]))
    ensures Body(s + x, i) == Body(s, i)
  {
    WordBefore(s, x, i, "infinity");
    WordBefore(s, x, i, "inf");
    WordBefore(s, x, i, "nan");
    if HasWord(s, i, "nan") { NanEndBefore(s, x, i + 3); } else { AnyUnsignedBefore(s, x, i); }
  }

  // What comes after a number does not matter, if it starts with nothing a number could go on with.
  lemma {:induction false} TokenBefore(s: string, x: string, i: nat)
    requires i <= |s| && (x == "" || !IsTokenChar(x[0]))
    ensures Token(s + x, i) == Token(s, i)
  {
    SignBefore(s, x, i);
    BodyBefore(s, x, SignEnd(s, i));
  }

  lemma {:induction false} SpaceEndIs(s: string, e: nat)
    requires e < |s| && !IsSpace(s[e]) && forall k :: 0 <= k < e ==> IsSpace(s[k])
    ensures SpaceEnd(s, 0) == e
  {
  }

  // With spaces before it, and behind it something no number could go on with, a text is read as it
  // is read alone.
  lemma {:induction false} StrtodAround(spaces: string, text: string, x: string)
    requires text != "" && !IsSpace(text[0]) && forall i :: 0 <= i < |spaces| ==> IsSpace(spaces[i])
    requires x == "" || !IsTokenChar(x[0])
    ensures Strtod(spaces + text + x)
         == match Strtod(text) case NoNumber => NoNumber case Number(n, end) => Number(n, |spaces| + end)
  {
    var s := spaces + text + x;
    SpaceEndIs(s, |spaces|);
    SpaceEndIs(text, 0);
    assert s[|spaces|..] == text + x && text[0..] == text;
    TokenBefore(text, x, 0);
  }

  // A string that is one number has neither commas nor line breaks in its number, which starts and
  // ends with characters of it.
  lemma {:induction false} WholeNumber(s: string)
    requires Strtod(s).Number? && Strtod(s).end == |s|
    ensures SpaceEnd(s, 0) < |s|
    ensures forall k :: SpaceEnd(s, 0) <= k < |s| ==> IsTokenChar(s[k])
  {
    var start := SpaceEnd(s, 0);
    TokenChars(s[start..], 0);
    forall k | start <= k < |s| ensures IsTokenChar(s[k]) {
      assert IsTokenChar(s[start..][k - start]);
    }
  }

  lemma {:induction false} TokenOfDigits(s: string, i: nat)
    requires i < |s| && IsDigits(s[i..])
    ensures AnyUnsigned(s, i) == Number(Finite(DigitsValue(s[i..]) as real), |s|)
    ensures !HasSign(s, i) && !HasWord(s, i, "infinity") && !HasWord(s, i, "inf") && !HasWord(s, i, "nan")
  {
    assert forall k :: i <= k < |s| ==> s[k] == s[i..][k - i];
    assert DigitsEnd(s, i, false) == |s|;
    assert s[i..|s|] + "" == s[i..];
    assert IsDigit(Lower(s[i]));
    if i + 1 < |s| {
      assert s[i..i + 2][1] == s[i + 1] && IsDigit(s[i..][1]);
    }
  }

  // Digits are read as the integer they print.
  lemma {:induction false} StrtodOfDigits(s: string)
    requires IsDigits(s)
    ensures Strtod(s) == Number(Finite(DigitsValue(s) as real), |s|)
  {
    assert IsDigit(s[0]) && s[0..] == s;
    TokenOfDigits(s, 0);
  }

  lemma {:induction false} TokenOfNegative(s: string)
    requires s != "" && s[0] == '-' && IsDigits(s[1..])
    ensures Token(s, 0) == Number(Finite(-(DigitsValue(s[1..]) as real)), |s|)
  {
    TokenOfDigits(s, 1);
  }

  lemma {:induction false} StrtodOfNegative(s: string)
    requires s != "" && s[0] == '-' && IsDigits(s[1..])
    ensures Strtod(s) == Number(Finite(-(DigitsValue(s[1..]) as real)), |s|)
  {
    SpaceEndIs(s, 0);
    TokenOfNegative(s);
    assert s[0..] == s;
  }

  // Every printed integer is read back whole.
  lemma {:induction false} StrtodOfInteger(n: int)
    ensures Strtod(ToString(n)) == Number(Finite(n as real), |ToString(n)|)
  {
    if n < 0 {
      DigitsRoundTrip(-n);
      assert ToString(n)[1..] == Digits(-n);
      StrtodOfNegative(ToString(n));
    } else {
      DigitsRoundTrip(n);
      StrtodOfDigits(Digits(n));
    }
  }

  // --- Hexadecimal numbers ---------------------------------------------------------------------------------

  predicate IsHex(s: string) {
    s != "" && forall i :: 0 <= i < |s| ==> IsDigitOf(s[i], true)
  }

  lemma {:induction false} HexDigitsEnd(s: string, i: nat)
    requires i <= |s| && forall k :: i <= k < |s| ==> IsDigitOf(s[k], true)
    ensures DigitsEnd(s, i, true) == |s|
    decreases |s| - i
  {
    if i < |s| { HexDigitsEnd(s, i + 1); }
  }

  lemma {:induction false} UnsignedOfHex(digits: string)
    requires IsHex(digits)
    ensures Unsigned("0x" + digits, 2, true) == Number(Finite(HexValue(digits) as real), |digits| + 2)
  {
    var s := "0x" + digits;
    HexDigitsEnd(s, 2);
    assert s[2..|s|] + "" == digits;
    assert Power(2, 0) == 1;
  }

  lemma {:induction false} NotThisWord(s: string, i: nat, word: string)
    requires i < |s| && word != "" && Lower(s[i]) != word[0]
    ensures !HasWord(s, i, word)
  {
    if i + |word| <= |s| { assert s[i..i + |word|][0] == s[i]; }
  }

  lemma {:induction false} BodyOfHex(digits: string)
    requires IsHex(digits)
    ensures Token("0x" + digits, 0) == Unsigned("0x" + digits, 2, true)
  {
    var s := "0x" + digits;
    assert s[0..2] == "0x";
    NotThisWord(s, 0, "infinity");
    NotThisWord(s, 0, "inf");
    NotThisWord(s, 0, "nan");
    UnsignedOfHex(digits);
  }

  // A hexadecimal number is read whole, and not as the 0 that it begins with.
  lemma {:induction false} StrtodOfHex(digits: string)
    requires IsHex(digits)
    ensures Strtod("0x" + digits) == Number(Finite(HexValue(digits) as real), |digits| + 2)
  {
    var s := "0x" + digits;
    SpaceEndIs(s, 0);
    assert s[0..] == s;
    BodyOfHex(digits);
    UnsignedOfHex(digits);
  }
}
