/**
 * The pieces of JavaScript semantics the character sheet's rules lean on:
 * the values a number-valued record field or a parse can hold, truthiness
 * and the `x || d` fallback, the coercing `<` comparison, Math.min/Math.max,
 * the global parseInt (radix omitted) and String(n) for integers.
 *
 * Numbers are modelled as unbounded integers: every number the rules touch
 * is an integer, and -0 is not told apart from 0 (both are falsy and compare
 * equal, which is all the rules observe).
 */
module JsValues {

  datatype Option<T> = None | Some(value: T)

  /** The `key` of a keyboard event, as far as the key handlers tell keys apart. */
  datatype Key = Enter | Escape | OtherKey(name: string)

  /** What a number-valued field of a server record, or a parse, can hold. */
  datatype JsNumber = Undefined | Null | NaN | Num(n: int)

  /** JavaScript truthiness of a number-valued expression: only a non-zero number is truthy. */
  predicate Truthy(x: JsNumber) {
    x.Num? && x.n != 0
  }

  /** `x || d` for a number literal `d`. */
  function Or(x: JsNumber, d: int): (r: int)
    ensures r == d || r != 0
    ensures Truthy(x) ==> r == x.n
    ensures !Truthy(x) ==> r == d
  {
    if Truthy(x) then x.n else d
  }

  /** ToNumeric as used by a relational comparison; None stands for NaN. */
  function ToNumeric(x: JsNumber): Option<int> {
    match x
    case Undefined => None
    case Null => Some(0)
    case NaN => None
    case Num(n) => Some(n)
  }

  /** `a < b`: false as soon as either side converts to NaN. */
  predicate LessThan(a: JsNumber, b: JsNumber): (lt: bool)
    ensures a.Num? && b.Num? ==> (lt <==> a.n < b.n)
    ensures a == Null && b.Num? ==> (lt <==> 0 < b.n)
    ensures a.Num? && b == Null ==> (lt <==> a.n < 0)
    ensures a == Null && b == Null ==> !lt
    ensures a.Undefined? || a.NaN? || b.Undefined? || b.NaN? ==> !lt
  {
    ToNumeric(a).Some? && ToNumeric(b).Some? && ToNumeric(a).value < ToNumeric(b).value
  }

  function Min(a: int, b: int): int {
    if a <= b then a else b
  }

  function Max(a: int, b: int): int {
    if a >= b then a else b
  }

  // ---------------------------------------------------------------------
  // parseInt(string) with the radix omitted (ECMAScript 2024, section 19.2.5)
  // ---------------------------------------------------------------------

  /** StrWhiteSpaceChar: the WhiteSpace and LineTerminator code points. */
  predicate IsWhiteSpace(c: char) {
    || c == '\t' || c == '\n' || c == '\U{B}' || c == '\U{C}' || c == '\r'
    || c == ' ' || c == '\U{A0}' || c == '\U{1680}'
    || ('\U{2000}' <= c <= '\U{200A}')
    || c == '\U{2028}' || c == '\U{2029}' || c == '\U{202F}' || c == '\U{205F}'
    || c == '\U{3000}' || c == '\U{FEFF}'
  }

  /** The value of a digit in radix 36; 36 for a character that is no digit at all. */
  function DigitValue(c: char): nat {
    if '0' <= c <= '9' then c as int - '0' as int
    else if 'a' <= c <= 'z' then c as int - 'a' as int + 10
    else if 'A' <= c <= 'Z' then c as int - 'A' as int + 10
    else 36
  }

  predicate IsDigit(c: char, radix: nat) {
    DigitValue(c) < radix
  }

  /** The string with its leading white space removed. */
  function TrimStart(s: string): (r: string)
    ensures |r| <= |s| && r == s[|s| - |r|..]
    ensures forall i :: 0 <= i < |s| - |r| ==> IsWhiteSpace(s[i])
    ensures r == [] || !IsWhiteSpace(r[0])
  {
    if s != [] && IsWhiteSpace(s[0]) then TrimStart(s[1..]) else s
  }

  /** The length of the longest prefix of `s` made of radix-`radix` digits. */
  function DigitRun(s: string, radix: nat): (k: nat)
    ensures k <= |s|
    ensures forall i :: 0 <= i < k ==> IsDigit(s[i], radix)
    ensures k < |s| ==> !IsDigit(s[k], radix)
  {
    if s == [] || !IsDigit(s[0], radix) then 0 else 1 + DigitRun(s[1..], radix)
  }

  /** The mathematical value of a digit string, most significant digit first. */
  function Value(z: string, radix: nat): nat
    requires forall i :: 0 <= i < |z| ==> IsDigit(z[i], radix)
  {
    if z == [] then 0
    else
      var high: nat := Value(z[..|z| - 1], radix);
      var low: nat := DigitValue(z[|z| - 1]);
      assert high * radix >= 0 by { ProductOfNaturals(high, radix); }
      high * radix + low
  }

  lemma ProductOfNaturals(a: nat, b: nat)
    ensures a * b >= 0
  {
  }

  /** The longest run of radix-`radix` digits at the head of `v`, or NaN when there is none. */
  function ParseDigits(v: string, radix: nat): (r: JsNumber)
    ensures r.NaN? || (r.Num? && r.n >= 0)
  {
    var k := DigitRun(v, radix);
    if k == 0 then NaN else Num(Value(v[..k], radix))
  }

  /** After the sign: a "0x" or "0X" prefix switches to radix 16, otherwise radix 10. */
  function ParseUnsigned(u: string): (r: JsNumber)
    ensures r.NaN? || (r.Num? && r.n >= 0)
  {
    if |u| >= 2 && u[0] == '0' && (u[1] == 'x' || u[1] == 'X') then ParseDigits(u[2..], 16)
    else ParseDigits(u, 10)
  }

  /** One optional sign, '-' negating what follows. */
  function ParseSigned(t: string): (r: JsNumber)
    ensures r.NaN? || r.Num?
  {
    if |t| > 0 && t[0] == '-' then
      match ParseUnsigned(t[1..])
      case Num(n) => Num(-n)
      case other => other
    else if |t| > 0 && t[0] == '+' then ParseUnsigned(t[1..])
    else ParseUnsigned(t)
  }

  /**
   * parseInt(s): skip leading white space, take one optional sign, then a
   * "0x"/"0X" prefix switches to radix 16; the longest run of digits that
   * follows is the value, and no digit at all gives NaN.
   */
  function ParseInt(s: string): (r: JsNumber)
    ensures r.NaN? || r.Num?
  {
    ParseSigned(TrimStart(s))
  }

  /** The `parseInt(v) || d` idiom the forms use for every numeric input. */
  function ParseIntOr(s: string, d: int): (r: int)
    ensures r == d || r != 0
    ensures Truthy(ParseInt(s)) ==> r == ParseInt(s).n
    ensures ParseInt(s).NaN? || ParseInt(s) == Num(0) ==> r == d
  {
    Or(ParseInt(s), d)
  }

  // ---------------------------------------------------------------------
  // String(n) for an integer n
  // ---------------------------------------------------------------------

  function DigitChar(d: nat): (c: char)
    requires d < 10
    ensures IsDigit(c, 10) && DigitValue(c) == d
  {
    ('0' as int + d) as char
  }

  /** The decimal numeral of `n`, without leading zeros. */
  function ShowNat(n: nat): (s: string)
    ensures |s| >= 1
    ensures forall i :: 0 <= i < |s| ==> IsDigit(s[i], 10)
    ensures s[0] == '0' ==> n == 0 && |s| == 1
  {
    if n < 10 then [DigitChar(n)] else ShowNat(n / 10) + [DigitChar(n % 10)]
  }

  /** String(n): the numeral, with a leading '-' for a negative number. */
  function Show(n: int): (s: string)
    ensures |s| >= 1
    ensures s[0] == '-' <==> n < 0
    ensures IsDigit(s[0], 10) <==> n >= 0
    ensures forall i :: 1 <= i < |s| ==> IsDigit(s[i], 10)
  {
    if n < 0 then "-" + ShowNat(-n) else ShowNat(n)
  }

  lemma {:induction false} ValueOfShowNat(n: nat)
    ensures Value(ShowNat(n), 10) == n
  {
    var s := ShowNat(n);
    if n >= 10 {
      assert s[..|s| - 1] == ShowNat(n / 10);
      ValueOfShowNat(n / 10);
    }
  }

  /** A numeral without leading zeros is read whole, in radix 10. */
  lemma ParseUnsignedOfNumeral(digits: string)
    requires |digits| >= 1
    requires forall i :: 0 <= i < |digits| ==> IsDigit(digits[i], 10)
    requires digits[0] == '0' ==> |digits| == 1
    ensures ParseUnsigned(digits) == Num(Value(digits, 10))
  {
    var k := DigitRun(digits, 10);
    assert k == |digits|;
    assert digits[..k] == digits;
  }

  /** Nothing is trimmed from text that starts with a sign or a digit. */
  lemma TrimStartOfNumeral(t: string)
    requires t != [] && (t[0] == '-' || IsDigit(t[0], 10))
    ensures TrimStart(t) == t
  {
    assert !IsWhiteSpace(t[0]);
  }

  /** parseInt undoes String on every integer. */
  lemma ParseIntOfShow(n: int)
    ensures ParseInt(Show(n)) == Num(n)
  {
    if n < 0 {
      ParseIntOfNegative(n);
    } else {
      var digits := ShowNat(n);
      ValueOfShowNat(n);
      ParseUnsignedOfNumeral(digits);
      TrimStartOfNumeral(digits);
      assert ParseSigned(digits) == ParseUnsigned(digits);
    }
  }

  lemma ParseIntOfNegative(n: int)
    requires n < 0
    ensures ParseInt(Show(n)) == Num(n)
  {
    var digits := ShowNat(-n);
    ValueOfShowNat(-n);
    ParseUnsignedOfNumeral(digits);
    var t := "-" + digits;
    TrimStartOfNumeral(t);
    assert t[1..] == digits;
    assert ParseSigned(t) == Num(n);
  }

  /** `parseInt(String(n)) || d` gives back every non-zero n, and d for 0. */
  lemma ParseIntOrOfShow(n: int, d: int)
    ensures ParseIntOr(Show(n), d) == if n == 0 then d else n
  {
    ParseIntOfShow(n);
  }

  lemma ShowExamples()
    ensures Show(0) == "0"
    ensures Show(150) == "150"
  {
    assert ShowNat(1) == "1";
    assert ShowNat(15) == ShowNat(1) + "5";
    assert ShowNat(150) == ShowNat(15) + "0";
  }

  /** parseInt skips leading white space and stops at the first non-digit. */
  lemma ParseIntStopsAtNonDigit()
    ensures ParseInt("  42px") == Num(42)
  {
    TrimStartOfNumeral("42px");
    assert TrimStart(" 42px") == "42px" by {
      assert IsWhiteSpace(" 42px"[0]);
      assert " 42px"[1..] == "42px";
    }
    assert TrimStart("  42px") == "42px" by {
      assert IsWhiteSpace("  42px"[0]);
      assert "  42px"[1..] == " 42px";
    }
    assert DigitRun("42px", 10) == 2;
    assert "42px"[..2] == "42";
    assert "42"[..1] == "4";
    assert Value("42", 10) == 42;
    assert ParseDigits("42px", 10) == Num(42);
    assert ParseUnsigned("42px") == Num(42);
  }

  /** Exponent notation is not understood: "1e5" reads as 1. */
  lemma ParseIntIgnoresExponent()
    ensures ParseInt("1e5") == Num(1)
  {
    TrimStartOfNumeral("1e5");
    assert DigitRun("1e5", 10) == 1;
    assert "1e5"[..1] == "1";
    assert ParseDigits("1e5", 10) == Num(1);
    assert ParseUnsigned("1e5") == Num(1);
  }

  /** With the radix omitted, a "0x" prefix reads hexadecimal. */
  lemma ParseIntReadsHex()
    ensures ParseInt("0x1A") == Num(26)
  {
    TrimStartOfNumeral("0x1A");
    assert "0x1A"[2..] == "1A";
    assert DigitRun("1A", 16) == 2;
    assert "1A"[..2] == "1A";
    assert "1A"[..1] == "1";
    assert Value("1A", 16) == 26;
    assert ParseDigits("1A", 16) == Num(26);
    assert ParseUnsigned("0x1A") == Num(26);
    assert ParseSigned("0x1A") == Num(26);
  }

  /** Text with no digit where one is expected gives NaN: the empty text, */
  lemma ParseIntOfEmpty()
    ensures ParseInt("") == NaN
  {
  }

  /** text that starts with neither white space, a sign nor a digit, */
  lemma ParseIntOfWord(s: string)
    requires s != [] && !IsWhiteSpace(s[0]) && !IsDigit(s[0], 10) && s[0] != '-' && s[0] != '+'
    ensures ParseInt(s) == NaN
  {
    assert TrimStart(s) == s;
  }

  /** a sign with no digit after it, */
  lemma ParseIntOfSign(s: string)
    requires s != [] && (s[0] == '-' || s[0] == '+')
    requires |s| == 1 || !IsDigit(s[1], 10)
    ensures ParseInt(s) == NaN
  {
    assert !IsWhiteSpace(s[0]);
    assert TrimStart(s) == s;
    assert ParseUnsigned(s[1..]) == NaN;
  }

  /** and a hexadecimal prefix, "0x" or "0X", with no hexadecimal digit after it. */
  lemma ParseIntOfHexPrefix(s: string)
    requires |s| >= 2 && s[0] == '0' && (s[1] == 'x' || s[1] == 'X')
    requires |s| == 2 || !IsDigit(s[2], 16)
    ensures ParseInt(s) == NaN
  {
    TrimStartOfNumeral(s);
    assert DigitRun(s[2..], 16) == 0;
    assert ParseUnsigned(s) == NaN;
  }
}
