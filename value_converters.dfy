/**
 * The text/value converters of the typed text fields built by
 * `FormFactory` and `ValueFieldFactory` (the two factories use the same
 * converters). An integral field parses the trimmed text with its boxed
 * class's decimal parser and falls back to null (nullable field) or 0
 * on any failure; it shows null as "" (nullable) or "0". A string field
 * keeps the text as it is and shows null as "".
 */
module ValueConverters {
  import opened JavaLang

  /** The boxed integral class a field stores. */
  datatype IntegralType = LongValue | IntegerValue | ShortValue | ByteValue

  function MinValue(t: IntegralType): int {
    match t
    case LongValue => LONG_MIN
    case IntegerValue => INT_MIN
    case ShortValue => SHORT_MIN
    case ByteValue => BYTE_MIN
  }

  function MaxValue(t: IntegralType): int {
    match t
    case LongValue => LONG_MAX
    case IntegerValue => INT_MAX
    case ShortValue => SHORT_MAX
    case ByteValue => BYTE_MAX
  }

  predicate InRange(t: IntegralType, n: int) {
    MinValue(t) <= n <= MaxValue(t)
  }

  /**
   * `getValueFromText` of an integral field: the parsed trimmed text, or
   * the fallback when `parseLong`/`parseInt`/`parseShort`/`parseByte`
   * throws. The result is always in the type's range, and is null only
   * for a nullable field.
   */
  function IntegralValueFromText(t: IntegralType, nullable: bool, text: string): (v: Option<int>)
    ensures v.Some? ==> InRange(t, v.value)
    ensures v.None? ==> nullable
  {
    match ParseDecimal(Trim(text), MinValue(t), MaxValue(t))
    case Some(n) => Some(n)
    case None => if nullable then None else Some(0)
  }

  /**
   * `getTextFromValue` of an integral field: the decimal string of a
   * value; for null "" if nullable, else "0". The text is empty exactly
   * for null in a nullable field.
   */
  function IntegralTextFromValue(nullable: bool, v: Option<int>): (text: string)
    ensures text == "" <==> v.None? && nullable
    ensures v.None? && !nullable ==> text == "0"
  {
    match v
    case Some(n) => DecimalString(n)
    case None => if nullable then "" else "0"
  }

  /** Blank (or all-whitespace) text means null in a nullable field and 0 otherwise. */
  lemma BlankTextIsFallback(t: IntegralType, nullable: bool, text: string)
    requires forall i :: 0 <= i < |text| ==> IsTrimmed(text[i])
    ensures IntegralValueFromText(t, nullable, text) == (if nullable then None else Some(0))
  {
    BlankTrimsToEmpty(text);
  }

  lemma {:induction false} BlankTrimsToEmpty(text: string)
    requires forall i :: 0 <= i < |text| ==> IsTrimmed(text[i])
    ensures TrimStart(text) == []
  {
    if |text| > 0 {
      BlankTrimsToEmpty(text[1..]);
    }
  }

  /**
   * Text that trims to an optional sign and digits gives their value
   * when it fits the type, and the fallback (null or 0) when it does
   * not: the parser's `NumberFormatException` is caught.
   */
  lemma IntegralValueOfDigits(t: IntegralType, nullable: bool, text: string, sign: string, digits: string)
    requires Trim(text) == sign + digits
    requires sign == "" || sign == "-" || sign == "+"
    requires |digits| > 0 && AllDigits(digits)
    ensures var v := SignedValue(sign, digits);
      IntegralValueFromText(t, nullable, text) ==
        if InRange(t, v) then Some(v) else if nullable then None else Some(0)
  {
    ParseDecimalOfSignedDigits(sign, digits, MinValue(t), MaxValue(t));
  }

  /** Text that does not trim to an optional sign and digits gives the fallback. */
  lemma MalformedTextIsFallback(t: IntegralType, nullable: bool, text: string)
    requires !IsSignedDigits(Trim(text))
    ensures IntegralValueFromText(t, nullable, text) == (if nullable then None else Some(0))
  {
  }

  /** "2147483648" in an `Integer` field is one past the range and falls back. */
  lemma IntegerOverflowIsFallback(nullable: bool)
    ensures IntegralValueFromText(IntegerValue, nullable, "2147483648") == (if nullable then None else Some(0))
  {
    ParseIntBoundary();
    assert Trim("2147483648") == "2147483648";
  }

  /** Every in-range value survives being shown and parsed back. */
  lemma IntegralValueRoundTrip(t: IntegralType, nullable: bool, n: int)
    requires InRange(t, n)
    ensures IntegralValueFromText(t, nullable, IntegralTextFromValue(nullable, Some(n))) == Some(n)
  {
    TrimDecimalString(n);
    ParseDecimalString(n, MinValue(t), MaxValue(t));
  }

  /** Null shown and parsed back is null in a nullable field and 0 otherwise. */
  lemma IntegralNullRoundTrip(t: IntegralType, nullable: bool)
    ensures IntegralValueFromText(t, nullable, IntegralTextFromValue(nullable, None)) ==
      (if nullable then None else Some(0))
  {
    if !nullable {
      ParseDecimalString(0, MinValue(t), MaxValue(t));
      TrimDecimalString(0);
    }
  }

  /**
   * A value parsed from any text is shown as text that parses back to
   * the same value: committing a field twice changes nothing the
   * second time, and the shown text is a fixed point.
   */
  lemma IntegralCommitIsStable(t: IntegralType, nullable: bool, text: string)
    ensures var v := IntegralValueFromText(t, nullable, text);
      IntegralValueFromText(t, nullable, IntegralTextFromValue(nullable, v)) == v
  {
    var v := IntegralValueFromText(t, nullable, text);
    if v.Some? {
      IntegralValueRoundTrip(t, nullable, v.value);
    } else {
      IntegralNullRoundTrip(t, nullable);
    }
  }

  /** `getValueFromText` of a string field: the text itself. */
  function StringValueFromText(text: string): (v: Option<string>)
    ensures v.Some? && v.value == text
  {
    Some(text)
  }

  /** `getTextFromValue` of a string field: the string, or "" for null. */
  function StringTextFromValue(v: Option<string>): (text: string)
    ensures v.Some? ==> text == v.value
    ensures v.None? ==> text == ""
  {
    if v.Some? then v.value else ""
  }

  /**
   * A string field shows exactly the text it parsed, keeps every
   * non-null value through a round trip, and turns null into "" once
   * the shown text is committed.
   */
  lemma StringRoundTrips(text: string, v: Option<string>)
    ensures StringTextFromValue(StringValueFromText(text)) == text
    ensures v.Some? ==> StringValueFromText(StringTextFromValue(v)) == v
    ensures v.None? ==> StringValueFromText(StringTextFromValue(v)) == Some("")
  {
  }
}
