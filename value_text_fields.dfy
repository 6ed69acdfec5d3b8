/**
 * The typed text field and its two wrappers from `FormFactory`:
 * `JValueTextField` keeps a stored value and the text shown for it in
 * step, `JFormFieldPanel` puts a label beside a field and delegates to
 * it, and `JValueBrowseField` sets a field from a browse supplier.
 * `ValueFieldFactory` declares the same three classes with the same
 * bodies; they are modelled here once.
 */
module ValueTextFields {
  import opened JavaLang

  /**
   * `JValueTextField`: `value` is the stored value (null as `None`) and
   * `text` the content of the inner text field. The converters are the
   * subclass's `getValueFromText` and `getTextFromValue`.
   */
  class ValueTextField<T> {
    const valueFromText: string -> Option<T>
    const textFromValue: Option<T> -> string
    var value: Option<T>
    var text: string

    /** The field built with an initial value: it is stored and shown. */
    constructor (valueFromText: string -> Option<T>, textFromValue: Option<T> -> string, initialValue: Option<T>)
      ensures this.valueFromText == valueFromText && this.textFromValue == textFromValue
      ensures value == initialValue && text == textFromValue(initialValue)
    {
      this.valueFromText := valueFromText;
      this.textFromValue := textFromValue;
      value := initialValue;
      text := textFromValue(initialValue);
    }

    /** The public no-argument constructor: no value, and an empty text field. */
    constructor Blank(valueFromText: string -> Option<T>, textFromValue: Option<T> -> string)
      ensures this.valueFromText == valueFromText && this.textFromValue == textFromValue
      ensures value.None? && text == ""
    {
      this.valueFromText := valueFromText;
      this.textFromValue := textFromValue;
      value := None;
      text := "";
    }

    function GetValue(): Option<T>
      reads this
    {
      value
    }

    /** Stores `v` and shows its text. */
    method SetValue(v: Option<T>)
      modifies this
      ensures GetValue() == v && text == textFromValue(v)
    {
      value := v;
      text := textFromValue(v);
    }

    /** Parses `t` into the value; the field then shows the value's text, not `t`. */
    method SetText(t: string)
      modifies this
      ensures GetValue() == valueFromText(t) && text == textFromValue(valueFromText(t))
    {
      SetValue(valueFromText(t));
    }

    /** The user edits the inner text field; the stored value is untouched until a commit. */
    method EditText(t: string)
      modifies this
      ensures text == t && value == old(value)
    {
      text := t;
    }

    /** Focus lost (`refreshValue`): the shown text is parsed into the value. */
    method FocusLost()
      modifies this
      ensures value == valueFromText(old(text)) && text == textFromValue(value)
    {
      SetValue(valueFromText(text));
    }

    /** Escape (`restoreValue`): the value stays and the text is rebuilt from it. */
    method EscapePressed()
      modifies this
      ensures value == old(value) && text == textFromValue(old(value))
    {
      SetValue(GetValue());
    }
  }

  /** `JFormFieldPanel`: a field with a label on its left or right. */
  class FormFieldPanel<T> {
    const labelText: string
    const labelOnRight: bool
    const formField: ValueTextField<T>

    constructor (labelText: string, formField: ValueTextField<T>, labelOnRight: bool)
      ensures this.labelText == labelText && this.formField == formField && this.labelOnRight == labelOnRight
    {
      this.labelText := labelText;
      this.formField := formField;
      this.labelOnRight := labelOnRight;
    }

    /** The wrapped field's value. */
    function GetValue(): (v: Option<T>)
      reads this, formField
      ensures v == formField.value
    {
      formField.GetValue()
    }

    /** Sets the wrapped field's value; nothing else changes. */
    method SetValue(v: Option<T>)
      modifies formField
      ensures GetValue() == v && formField.text == formField.textFromValue(v)
    {
      formField.SetValue(v);
    }
  }

  /**
   * `JValueBrowseField`: a field plus a browse button. Its value is the
   * wrapped field's; the button's action asks the supplier and applies
   * what it returns only when that is not null.
   */
  class BrowseField<T> {
    const field: ValueTextField<T>

    constructor (field: ValueTextField<T>)
      ensures this.field == field
    {
      this.field := field;
    }

    function GetValue(): (v: Option<T>)
      reads this, field
      ensures v == field.value
    {
      field.GetValue()
    }

    method SetValue(v: Option<T>)
      modifies field
      ensures GetValue() == v && field.text == field.textFromValue(v)
    {
      field.SetValue(v);
    }

    /** The browse button, with `supplied` what the browse supplier returned. */
    method BrowseAction(supplied: Option<T>)
      modifies field
      ensures supplied.Some? ==> GetValue() == supplied && field.text == field.textFromValue(supplied)
      ensures supplied.None? ==> field.value == old(field.value) && field.text == old(field.text)
    {
      if supplied.Some? {
        SetValue(supplied);
      }
    }
  }
}
