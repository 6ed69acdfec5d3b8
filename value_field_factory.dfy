/**
 * `ValueFieldFactory`: the same typed text fields as `FormFactory`,
 * with the `nullable` flag first. Its `JValueTextField`, `JValuePanel`
 * and `JValueBrowseField` have the same bodies as `FormFactory`'s and
 * are the classes of `ValueTextFields`.
 */
module ValueFieldFactory {
  import opened JavaLang
  import opened ValueConverters
  import opened ValueTextFields

  /** `stringField`: the text is the value; null shows as "" whether or not the field is nullable. */
  method StringField(nullable: bool, initialValue: Option<string>) returns (field: ValueTextField<string>)
    ensures fresh(field)
    ensures field.value == initialValue && field.text == StringTextFromValue(initialValue)
    ensures forall s :: field.valueFromText(s) == StringValueFromText(s)
    ensures forall v :: field.textFromValue(v) == StringTextFromValue(v)
  {
    field := new ValueTextField(s => StringValueFromText(s), v => StringTextFromValue(v), initialValue);
  }

  /**
   * `longField`, `integerField`, `shortField` and `byteField`: the field
   * of the integral type `t`, holding an initial value of that type.
   */
  method IntegralField(nullable: bool, t: IntegralType, initialValue: Option<int>) returns (field: ValueTextField<int>)
    requires initialValue.Some? ==> InRange(t, initialValue.value)
    ensures fresh(field)
    ensures field.value == initialValue && field.text == IntegralTextFromValue(nullable, initialValue)
    ensures forall s :: field.valueFromText(s) == IntegralValueFromText(t, nullable, s)
    ensures forall v :: field.textFromValue(v) == IntegralTextFromValue(nullable, v)
  {
    field := new ValueTextField(s => IntegralValueFromText(t, nullable, s), v => IntegralTextFromValue(nullable, v), initialValue);
  }
}
