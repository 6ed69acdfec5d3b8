/**
 * `FormFactory`: the typed text fields it builds (string and the
 * integral family) and `JFormPanel`, a column of labelled fields each
 * reachable by a key.
 */
module FormFactory {
  import opened JavaLang
  import opened ValueConverters
  import opened ValueTextFields

  /** `stringTextField`: the text is the value; null shows as "" whether or not the field is nullable. */
  method StringTextField(initialValue: Option<string>, nullable: bool) returns (field: ValueTextField<string>)
    ensures fresh(field)
    ensures field.value == initialValue && field.text == StringTextFromValue(initialValue)
    ensures forall s :: field.valueFromText(s) == StringValueFromText(s)
    ensures forall v :: field.textFromValue(v) == StringTextFromValue(v)
  {
    field := new ValueTextField(s => StringValueFromText(s), v => StringTextFromValue(v), initialValue);
  }

  /**
   * `longTextField`, `integerTextField`, `shortTextField` and
   * `byteTextField`: the field of the integral type `t`, holding an
   * initial value of that type.
   */
  method IntegralTextField(t: IntegralType, initialValue: Option<int>, nullable: bool) returns (field: ValueTextField<int>)
    requires initialValue.Some? ==> InRange(t, initialValue.value)
    ensures fresh(field)
    ensures field.value == initialValue && field.text == IntegralTextFromValue(nullable, initialValue)
    ensures forall s :: field.valueFromText(s) == IntegralValueFromText(t, nullable, s)
    ensures forall v :: field.textFromValue(v) == IntegralTextFromValue(nullable, v)
  {
    field := new ValueTextField(s => IntegralValueFromText(t, nullable, s), v => IntegralTextFromValue(nullable, v), initialValue);
  }

  datatype LabelSide = LEFT | RIGHT

  datatype LabelJustification = LEFT | CENTER | RIGHT | LEADING | TRAILING

  /**
   * The class `Class.getMethod` is asked for in `JFormPanel.setValue`
   * would have to be this one: a field panel's only `setValue` takes a
   * `T`, which erases to `Object`.
   */
  const SET_VALUE_PARAMETER: JClass := OBJECT

  /**
   * The reflective call `JFormPanel.setValue` makes on a field it found,
   * as written: `value.getClass()` throws on null, and `getMethod` finds
   * `setValue` only when the value's class is exactly the erased
   * parameter class; its `NoSuchMethodException` is rethrown as a
   * `ClassCastException`. `Ok` means the field's `setValue` ran.
   */
  function ReflectiveSetValue<T>(value: Option<T>, valueClass: JClass): (r: Result<()>)
    ensures r.Ok? <==> value.Some? && valueClass == SET_VALUE_PARAMETER
    ensures value.None? ==> r == Throws(NullPointer)
  {
    if value.None? then Throws(NullPointer)
    else if valueClass != SET_VALUE_PARAMETER then Throws(ClassCast)
    else Ok(())
  }

  /** A boxed `Integer` stored under an existing key is refused with a `ClassCastException`. */
  lemma ReflectiveSetValueRejectsInteger(n: int)
    ensures ReflectiveSetValue(Some(n), RefClass("java.lang.Integer")) == Throws(ClassCast)
  {
    assert RefClass("java.lang.Integer") != OBJECT;
  }

  /** `JFormPanel`: labelled fields laid out top to bottom, each reachable by a key. */
  class FormPanel<K(==), T> {
    const labelSide: LabelSide
    const labelJustification: LabelJustification
    const labelWidth: int32
    /** `fieldValueMap`: the panel added last under each key. */
    var fieldValueMap: map<K, FormFieldPanel<T>>
    /** Every panel added, in order, including ones whose key was later reused. */
    var components: seq<FormFieldPanel<T>>

    constructor (labelSide: LabelSide, labelJustification: LabelJustification, labelWidth: int32)
      ensures this.labelSide == labelSide && this.labelJustification == labelJustification
      ensures this.labelWidth == labelWidth
      ensures fieldValueMap == map[] && components == []
    {
      this.labelSide := labelSide;
      this.labelJustification := labelJustification;
      this.labelWidth := labelWidth;
      fieldValueMap := map[];
      components := [];
    }

    /** The fields the map reaches. */
    ghost function Fields(): set<ValueTextField<T>>
      reads this
    {
      set k | k in fieldValueMap :: fieldValueMap[k].formField
    }

    /**
     * Wraps `field` with its label (on the side the panel was made
     * with), maps `key` to the new panel, replacing any earlier
     * mapping, and appends it to the layout; returns the form itself.
     */
    method AddField(key: K, labelText: string, field: ValueTextField<T>) returns (self: FormPanel<K, T>)
      modifies this
      ensures self == this
      ensures key in fieldValueMap && fresh(fieldValueMap[key])
      ensures fieldValueMap == old(fieldValueMap)[key := fieldValueMap[key]]
      ensures fieldValueMap[key].formField == field && fieldValueMap[key].labelText == labelText
      ensures fieldValueMap[key].labelOnRight <==> labelSide == LabelSide.RIGHT
      ensures components == old(components) + [fieldValueMap[key]]
    {
      var panel := new FormFieldPanel(labelText, field, labelSide == LabelSide.RIGHT);
      fieldValueMap := fieldValueMap[key := panel];
      components := components + [panel];
      return this;
    }

    /** The value of the field under `key`; null when there is none. */
    function GetValue(key: K): (v: Option<T>)
      reads this, Fields()
      ensures key !in fieldValueMap ==> v.None?
      ensures key in fieldValueMap ==> v == fieldValueMap[key].formField.value
    {
      if key in fieldValueMap then fieldValueMap[key].formField.GetValue() else None
    }

    /**
     * `setValue` as intended: the field under `key` takes `value`; an
     * unknown key changes nothing.
     */
    method SetValue(key: K, value: Option<T>)
      modifies if key in fieldValueMap then {fieldValueMap[key].formField} else {}
      ensures key in fieldValueMap ==> GetValue(key) == value
      ensures key in fieldValueMap ==>
        fieldValueMap[key].formField.text == fieldValueMap[key].formField.textFromValue(value)
    {
      if key in fieldValueMap {
        fieldValueMap[key].SetValue(value);
      }
    }

    /**
     * `setValue` as written, with `valueClass` the runtime class of
     * `value`: an unknown key changes nothing; otherwise the reflective
     * call decides, and only when it succeeds does the field change.
     */
    method SetValueAsWritten(key: K, value: Option<T>, valueClass: JClass) returns (r: Result<()>)
      modifies if key in fieldValueMap then {fieldValueMap[key].formField} else {}
      ensures key !in fieldValueMap ==> r == Ok(())
      ensures key in fieldValueMap ==> r == ReflectiveSetValue(value, valueClass)
      ensures key in fieldValueMap && r.Ok? ==> GetValue(key) == value
      ensures key in fieldValueMap && r.Throws? ==>
        && fieldValueMap[key].formField.value == old(fieldValueMap[key].formField.value)
        && fieldValueMap[key].formField.text == old(fieldValueMap[key].formField.text)
    {
      if key !in fieldValueMap {
        return Ok(());
      }
      r := ReflectiveSetValue(value, valueClass);
      if r.Ok? {
        fieldValueMap[key].SetValue(value);
      }
    }
  }
}
