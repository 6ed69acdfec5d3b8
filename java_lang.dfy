/**
 * The small part of the Java platform the rest of the model leans on:
 * null as `Option`, thrown exceptions as `Result`, 32-bit `int`
 * arithmetic, the ASCII part of `Character`, `String.trim`,
 * `String.valueOf(long)` and the decimal parsers of the boxed
 * integer classes, and `Class` objects for reflection.
 */
module JavaLang {

  /** A Java reference that may be null. */
  datatype Option<T> = None | Some(value: T)

  /** The unchecked exceptions the modelled code can throw. */
  datatype Exception =
    | IndexOutOfBounds
    | IllegalArgument
    | NullPointer
    | ClassCast

  /** The outcome of a Java call: a value, or an exception that propagates. */
  datatype Result<T> = Ok(value: T) | Throws(error: Exception)

  /* ---------------------------------------------------------------- */
  /* Fixed-width integers                                              */
  /* ---------------------------------------------------------------- */

  const INT_MIN: int := -0x8000_0000
  const INT_MAX: int := 0x7fff_ffff
  const LONG_MIN: int := -0x8000_0000_0000_0000
  const LONG_MAX: int := 0x7fff_ffff_ffff_ffff
  const SHORT_MIN: int := -0x8000
  const SHORT_MAX: int := 0x7fff
  const BYTE_MIN: int := -0x80
  const BYTE_MAX: int := 0x7f

  /** Java's `int`. */
  type int32 = x: int | -0x8000_0000 <= x <= 0x7fff_ffff

  /** Two's-complement wrap-around of an `int` expression. */
  function Wrap32(x: int): (r: int32)
    ensures INT_MIN <= x <= INT_MAX ==> r == x
    ensures x > INT_MAX && x - INT_MAX <= 0x1_0000_0000 ==> r == x - 0x1_0000_0000
    ensures x < INT_MIN && INT_MIN - x <= 0x1_0000_0000 ==> r == x + 0x1_0000_0000
  {
    (x - INT_MIN) % 0x1_0000_0000 + INT_MIN
  }

  /* ---------------------------------------------------------------- */
  /* Characters and strings (ASCII only)                               */
  /* ---------------------------------------------------------------- */

  /** `Character.isUpperCase`, restricted to ASCII letters. */
  predicate IsUpperCase(c: char) {
    'A' <= c <= 'Z'
  }

  predicate IsLowerCase(c: char) {
    'a' <= c <= 'z'
  }

  /** `Character.toLowerCase`, restricted to ASCII letters. */
  function ToLowerCase(c: char): (r: char)
    ensures IsUpperCase(c) ==> IsLowerCase(r) && r as int == c as int + 32
    ensures !IsUpperCase(c) ==> r == c
  {
    if IsUpperCase(c) then (c as int + 32) as char else c
  }

  /** `Character.toUpperCase`, restricted to ASCII letters. */
  function ToUpperCase(c: char): (r: char)
    ensures IsLowerCase(c) ==> IsUpperCase(r) && r as int == c as int - 32
    ensures !IsLowerCase(c) ==> r == c
  {
    if IsLowerCase(c) then (c as int - 32) as char else c
  }

  lemma UpperLowerUpper(c: char)
    requires IsUpperCase(c)
    ensures ToUpperCase(ToLowerCase(c)) == c
  {
  }

  /** `String.startsWith`. */
  predicate StartsWith(s: string, prefix: string) {
    |prefix| <= |s| && s[..|prefix|] == prefix
  }

  /** The characters `String.trim` strips: every code point up to U+0020. */
  predicate IsTrimmed(c: char) {
    c <= ' '
  }

  /** Every character of `t` is one `String.trim` removes. */
  predicate AllTrimmed(t: string) {
    forall k :: 0 <= k < |t| ==> IsTrimmed(t[k])
  }

  /** Every character of `s` before index `n` is one `String.trim` removes. */
  predicate TrimmedBefore(s: string, n: int) {
    forall k :: 0 <= k < n && k < |s| ==> IsTrimmed(s[k])
  }

  /** Every character of `s` from index `n` on is one `String.trim` removes. */
  predicate TrimmedFrom(s: string, n: int) {
    forall k :: 0 <= n <= k < |s| ==> IsTrimmed(s[k])
  }

  /** `r` is `s` with the `i` characters before it and those after it all removable. */
  predicate TrimsTo(s: string, i: int, r: string) {
    0 <= i <= |s| - |r| && r == s[i..i + |r|] && TrimmedBefore(s, i) && TrimmedFrom(s, i + |r|)
  }

  function TrimStart(s: string): (r: string)
    ensures |r| <= |s| && r == s[|s| - |r|..]
    ensures TrimmedBefore(s, |s| - |r|)
    ensures r == [] || !IsTrimmed(r[0])
    ensures |s| > 0 && !IsTrimmed(s[0]) ==> r == s
  {
    if |s| > 0 && IsTrimmed(s[0]) then
      var r := TrimStart(s[1..]);
      assert forall k :: 1 <= k < |s| ==> s[k] == s[1..][k - 1];
      r
    else s
  }

  function TrimEnd(s: string): (r: string)
    ensures |r| <= |s| && r == s[..|r|]
    ensures TrimmedFrom(s, |r|)
    ensures r == [] || !IsTrimmed(r[|r| - 1])
    ensures |s| > 0 && !IsTrimmed(s[|s| - 1]) ==> r == s
  {
    if |s| > 0 && IsTrimmed(s[|s| - 1]) then
      TrimEnd(s[..|s| - 1])
    else s
  }

  /**
   * `String.trim`: the longest substring that neither starts nor ends
   * with a character up to U+0020.
   */
  function Trim(s: string): (r: string)
    ensures |r| <= |s|
    ensures r == [] || (!IsTrimmed(r[0]) && !IsTrimmed(r[|r| - 1]))
    ensures |s| > 0 && !IsTrimmed(s[0]) && !IsTrimmed(s[|s| - 1]) ==> r == s
  {
    TrimEnd(TrimStart(s))
  }

  /** `String.trim` removes only characters up to U+0020, and only from the two ends. */
  lemma TrimSpec(s: string)
    ensures exists i :: TrimsTo(s, i, Trim(s))
  {
    var t := TrimStart(s);
    var r := TrimEnd(t);
    assert Trim(s) == r;
    var i := |s| - |t|;
    assert s[i..i + |r|] == t[..|r|];
    assert TrimmedFrom(s, i + |r|) by {
      forall k | i + |r| <= k < |s| ensures IsTrimmed(s[k]) {
        assert s[k] == t[k - i];
      }
    }
    assert TrimsTo(s, i, r);
  }

  /** `String.trim` leaves nothing exactly when every character is up to U+0020. */
  lemma TrimBlank(s: string)
    ensures Trim(s) == [] <==> AllTrimmed(s)
  {
    var t := TrimStart(s);
    var r := TrimEnd(t);
    assert Trim(s) == r;
    var i := |s| - |t|;
    if r == [] {
      assert t == [];
    } else {
      assert s[i] == r[0];
    }
  }

  /* ---------------------------------------------------------------- */
  /* Decimal text                                                      */
  /* ---------------------------------------------------------------- */

  predicate IsDigit(c: char) {
    '0' <= c <= '9'
  }

  predicate AllDigits(s: string) {
    forall i :: 0 <= i < |s| ==> IsDigit(s[i])
  }

  function DigitChar(d: nat): (c: char)
    requires d < 10
    ensures IsDigit(c)
  {
    ('0' as int + d) as char
  }

  function DigitValue(c: char): (d: nat)
    requires IsDigit(c)
    ensures d < 10 && DigitChar(d) == c
  {
    c as int - '0' as int
  }

  /** The decimal digits of a natural number, without leading zeros. */
  function NatToDecimal(n: nat): (s: string)
    ensures |s| > 0 && AllDigits(s)
    ensures |s| > 1 ==> s[0] != '0'
    decreases n
  {
    if n < 10 then [DigitChar(n)] else NatToDecimal(n / 10) + [DigitChar(n % 10)]
  }

  /** `String.valueOf` of an integral value. */
  function DecimalString(n: int): (s: string)
    ensures |s| > 0
    ensures n < 0 <==> s[0] == '-'
  {
    if n < 0 then "-" + NatToDecimal(-n) else NatToDecimal(n)
  }

  /** The value of a non-empty run of ASCII digits, most significant first. */
  function DigitsValue(s: string): nat
    requires AllDigits(s)
  {
    if s == [] then 0 else DigitsValue(s[..|s| - 1]) * 10 + DigitValue(s[|s| - 1])
  }

  /** The length of a decimal text's leading '-' or '+', if it has one. */
  function SignLength(s: string): (n: nat)
    ensures n <= 1 && n <= |s|
    ensures n == 1 <==> |s| > 0 && (s[0] == '-' || s[0] == '+')
  {
    if |s| > 0 && (s[0] == '-' || s[0] == '+') then 1 else 0
  }

  /** The syntax the decimal parsers accept: an optional sign, then at least one digit. */
  predicate IsSignedDigits(s: string) {
    SignLength(s) < |s| && AllDigits(s[SignLength(s)..])
  }

  /** The value a sign ("", "+" or "-") and a run of digits stand for. */
  function SignedValue(sign: string, digits: string): (v: int)
    requires AllDigits(digits)
    ensures sign == "-" ==> v <= 0 && -v == DigitsValue(digits)
    ensures sign != "-" ==> v >= 0 && v == DigitsValue(digits)
  {
    if sign == "-" then -(DigitsValue(digits) as int) else DigitsValue(digits)
  }

  /**
   * `Integer.parseInt` (and `Long.parseLong`, `Short.parseShort`,
   * `Byte.parseByte`) in radix 10 with the range [lo, hi]: an optional
   * sign followed by at least one digit, and a value in range; `None`
   * where Java throws `NumberFormatException`. Digits are ASCII only.
   * The converse of the second clause is `ParseDecimalOfSignedDigits`.
   */
  function ParseDecimal(s: string, lo: int, hi: int): (r: Option<int>)
    ensures r.Some? ==> lo <= r.value <= hi
    ensures r.Some? ==> IsSignedDigits(s) && r.value == SignedValue(s[..SignLength(s)], s[SignLength(s)..])
    ensures |s| == 0 ==> r.None?
    ensures |s| > 0 && !IsDigit(s[0]) && s[0] != '-' && s[0] != '+' ==> r.None?
  {
    if |s| == 0 then None
    else
      var digits := if s[0] == '-' || s[0] == '+' then s[1..] else s;
      if |digits| == 0 || !AllDigits(digits) then None
      else
        var n := DigitsValue(digits) as int;
        var v := if s[0] == '-' then 0 - n else n;
        if lo <= v <= hi then Some(v) else None
  }

  lemma {:induction false} DigitsOfDecimal(n: nat)
    ensures DigitsValue(NatToDecimal(n)) == n
    decreases n
  {
    var s := NatToDecimal(n);
    if n >= 10 {
      DigitsOfDecimal(n / 10);
      assert s[..|s| - 1] == NatToDecimal(n / 10);
    }
  }

  /** Parsing what `String.valueOf` printed gives the value back. */
  lemma ParseDecimalString(n: int, lo: int, hi: int)
    requires lo <= n <= hi
    ensures ParseDecimal(DecimalString(n), lo, hi) == Some(n)
  {
    var s := DecimalString(n);
    if n < 0 {
      assert s[1..] == NatToDecimal(-n);
      DigitsOfDecimal(-n);
    } else {
      assert IsDigit(s[0]);
      DigitsOfDecimal(n);
    }
  }

  /**
   * Every optional sign followed by digits is accepted exactly when its
   * value lies in [lo, hi]: leading zeros and a '+' are allowed, and a
   * value out of range fails like malformed text.
   */
  lemma ParseDecimalOfSignedDigits(sign: string, digits: string, lo: int, hi: int)
    requires sign == "" || sign == "-" || sign == "+"
    requires |digits| > 0 && AllDigits(digits)
    ensures var v := SignedValue(sign, digits);
      ParseDecimal(sign + digits, lo, hi) == if lo <= v <= hi then Some(v) else None
  {
    var s := sign + digits;
    if sign == "" {
      assert s == digits;
      assert IsDigit(s[0]);
    } else {
      assert s[1..] == digits;
    }
  }

  /** Appending a digit multiplies the value by ten and adds the digit. */
  lemma DigitsValueSnoc(p: string, c: char)
    requires AllDigits(p) && IsDigit(c)
    ensures AllDigits(p + [c]) && DigitsValue(p + [c]) == DigitsValue(p) * 10 + DigitValue(c)
  {
    assert (p + [c])[..|p|] == p;
  }

  /** `Integer.parseInt` accepts a leading '+' sign. */
  lemma ParsePlusSign()
    ensures ParseDecimal("+5", INT_MIN, INT_MAX) == Some(5)
  {
    ParseDecimalOfSignedDigits("+", "5", INT_MIN, INT_MAX);
    assert "+" + "5" == "+5";
  }

  /** `Integer.parseInt` accepts leading zeros. */
  lemma ParseLeadingZeros()
    ensures ParseDecimal("007", INT_MIN, INT_MAX) == Some(7)
  {
    var d := "007";
    assert DigitsValue(d) == 7 by {
      DigitsValueSnoc("", '0');
      assert "" + ['0'] == "0";
      DigitsValueSnoc("0", '0');
      assert "0" + ['0'] == "00";
      DigitsValueSnoc("00", '7');
      assert "00" + ['7'] == d;
    }
    ParseDecimalOfSignedDigits("", d, INT_MIN, INT_MAX);
    assert "" + d == d;
  }

  /** `Integer.parseInt` rejects a stray letter and a bare sign. */
  lemma ParseIntRejects()
    ensures ParseDecimal("12a", INT_MIN, INT_MAX).None?
    ensures ParseDecimal("-", INT_MIN, INT_MAX).None?
  {
    assert !IsDigit("12a"[2]);
  }

  /** `Integer.parseInt` accepts "2147483647" and rejects "2147483648", one past `Integer.MAX_VALUE`. */
  lemma ParseIntBoundary()
    ensures ParseDecimal("2147483647", INT_MIN, INT_MAX) == Some(INT_MAX)
    ensures ParseDecimal("2147483648", INT_MIN, INT_MAX).None?
  {
    var p := MaxIntPrefix();
    DigitsValueSnoc(p, '7');
    DigitsValueSnoc(p, '8');
    ParseDecimalOfSignedDigits("", p + "7", INT_MIN, INT_MAX);
    ParseDecimalOfSignedDigits("", p + "8", INT_MIN, INT_MAX);
    assert "" + (p + "7") == "2147483647";
    assert "" + (p + "8") == "2147483648";
  }

  /** "214748364", the digits of `Integer.MAX_VALUE` but the last, with their value. */
  lemma MaxIntPrefix() returns (p: string)
    ensures p == "214748364" && AllDigits(p) && DigitsValue(p) == 214748364
  {
    p := "";
    DigitsValueSnoc(p, '2'); p := p + "2";
    DigitsValueSnoc(p, '1'); p := p + "1";
    DigitsValueSnoc(p, '4'); p := p + "4";
    DigitsValueSnoc(p, '7'); p := p + "7";
    DigitsValueSnoc(p, '4'); p := p + "4";
    DigitsValueSnoc(p, '8'); p := p + "8";
    DigitsValueSnoc(p, '3'); p := p + "3";
    DigitsValueSnoc(p, '6'); p := p + "6";
    DigitsValueSnoc(p, '4'); p := p + "4";
  }

  /** `String.valueOf` output has nothing for `trim` to remove. */
  lemma TrimDecimalString(n: int)
    ensures Trim(DecimalString(n)) == DecimalString(n)
  {
    var s := DecimalString(n);
    assert IsDigit(s[|s| - 1]);
  }

  /* ---------------------------------------------------------------- */
  /* Classes                                                           */
  /* ---------------------------------------------------------------- */

  /** The nine primitive `Class` objects (`int.class`, ..., `void.class`). */
  datatype Primitive =
    | VoidType | BooleanType | ByteType | ShortType | CharType
    | IntType | FloatType | LongType | DoubleType

  /** A `Class` object: a primitive type or a named reference type. */
  datatype JClass = PrimitiveClass(kind: Primitive) | RefClass(name: string)

  const OBJECT: JClass := RefClass("java.lang.Object")
  const VOID: JClass := RefClass("java.lang.Void")
}
