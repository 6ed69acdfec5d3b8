/**
 * The `forms` package: two text fields that are themselves the text
 * component (they extend `JTextField`) and keep a typed value beside
 * its text. `AbstractValueTextField` renders the value with a
 * formatting hook; `ValueTextField` renders it with `toString`, so a
 * null value cannot be shown.
 */
module Forms {
  import opened JavaLang

  /** `JAbstractValueTextField`. */
  class AbstractValueTextField<T> {
    const valueFromText: string -> Option<T>
    const textFromValue: Option<T> -> string
    var value: Option<T>
    /** The component's own text. */
    var text: string

    /** The shown text is the rendering of the stored value. */
    predicate Synced()
      reads this
    {
      text == textFromValue(value)
    }

    constructor (valueFromText: string -> Option<T>, textFromValue: Option<T> -> string, initialValue: Option<T>)
      ensures this.valueFromText == valueFromText && this.textFromValue == textFromValue
      ensures value == initialValue && Synced()
    {
      this.valueFromText := valueFromText;
      this.textFromValue := textFromValue;
      value := initialValue;
      text := textFromValue(initialValue);
    }

    /** The no-argument constructor: no value and empty text. */
    constructor Blank(valueFromText: string -> Option<T>, textFromValue: Option<T> -> string)
      ensures this.valueFromText == valueFromText && this.textFromValue == textFromValue
      ensures value.None? && text == ""
    {
      this.valueFromText := valueFromText;
      this.textFromValue := textFromValue;
      value := None;
      text := "";
    }

    function GetValue(): Option<T>
      reads this
    {
      value
    }

    /** Stores `v` and renders it, null included, through the formatting hook. */
    method SetValue(v: Option<T>)
      modifies this
      ensures GetValue() == v && Synced()
    {
      value := v;
      text := textFromValue(v);
    }

    /**
     * Parses `t` into the value, then sets the text again from the
     * stored value: the field shows the normalised text, not `t`.
     */
    method SetText(t: string)
      modifies this
      ensures GetValue() == valueFromText(t) && text == textFromValue(valueFromText(t))
    {
      SetValue(valueFromText(t));
      text := textFromValue(value);
    }

    /** The user edits the text; the value is untouched. */
    method EditText(t: string)
      modifies this
      ensures text == t && value == old(value)
    {
      text := t;
    }
  }

  /** `forms.JValueTextField`: the value is shown with `toString`. */
  class ValueTextField<T> {
    const valueFromText: string -> Option<T>
    /** `Object.toString` of the value type. */
    const toText: T -> string
    var value: Option<T>
    var text: string

    constructor (valueFromText: string -> Option<T>, toText: T -> string, initialValue: T)
      ensures this.valueFromText == valueFromText && this.toText == toText
      ensures value == Some(initialValue) && text == toText(initialValue)
    {
      this.valueFromText := valueFromText;
      this.toText := toText;
      value := Some(initialValue);
      text := toText(initialValue);
    }

    constructor Blank(valueFromText: string -> Option<T>, toText: T -> string)
      ensures this.valueFromText == valueFromText && this.toText == toText
      ensures value.None? && text == ""
    {
      this.valueFromText := valueFromText;
      this.toText := toText;
      value := None;
      text := "";
    }

    function GetValue(): Option<T>
      reads this
    {
      value
    }

    /**
     * Stores `v` and shows `v.toString()`. Null is stored first and
     * then dereferenced: a `NullPointerException`, with the text left
     * as it was.
     */
    method SetValue(v: Option<T>) returns (r: Result<()>)
      modifies this
      ensures GetValue() == v
      ensures v.Some? ==> r == Ok(()) && text == toText(v.value)
      ensures v.None? ==> r == Throws(NullPointer) && text == old(text)
    {
      value := v;
      if v.None? {
        return Throws(NullPointer);
      }
      text := toText(v.value);
      return Ok(());
    }

    /** Exactly `setValue(getValueFromText(t))`. */
    method SetText(t: string) returns (r: Result<()>)
      modifies this
      ensures GetValue() == valueFromText(t)
      ensures valueFromText(t).Some? ==> r == Ok(()) && text == toText(valueFromText(t).value)
      ensures valueFromText(t).None? ==> r == Throws(NullPointer) && text == old(text)
    {
      r := SetValue(valueFromText(t));
    }

    method EditText(t: string)
      modifies this
      ensures text == t && value == old(value)
    {
      text := t;
    }
  }

  /** `new JValueTextField(initialValue)`: a null initial value throws while constructing. */
  method NewValueTextField<T>(valueFromText: string -> Option<T>, toText: T -> string, initialValue: Option<T>)
    returns (r: Result<ValueTextField<T>>)
    ensures initialValue.None? <==> r == Throws(NullPointer)
    ensures r.Ok? ==>
      && fresh(r.value) && r.value.valueFromText == valueFromText && r.value.toText == toText
      && r.value.value == initialValue && r.value.text == toText(initialValue.value)
  {
    if initialValue.None? {
      return Throws(NullPointer);
    }
    var field := new ValueTextField(valueFromText, toText, initialValue.value);
    return Ok(field);
  }
}
