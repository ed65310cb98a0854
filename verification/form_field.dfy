/** The validated text field of the older front end
    (`components/ui/FormField.tsx`): `validateField`, the rule that typing
    revalidates only after the first blur, and which error is shown. */
module FormField {
  import opened Wrappers
  import opened Strings
  import opened Tables

  /** The field's optional validation settings; `pattern` is the regular
      expression's `test`. A limit is `None` when not given. */
  datatype Validation = Validation(
    pattern: Option<string -> bool>, message: Option<string>,
    minLength: Option<int>, maxLength: Option<int>)

  /** The field's own state. */
  datatype FieldState = FieldState(localError: string, isValid: bool, isDirty: bool)

  const RequiredMessage := "This field is required"
  const DefaultPatternMessage := "Invalid format"

  /** The four checks, each failing on its own terms; a limit of 0 is
      falsy and checks nothing. */
  predicate RequiredFails(value: string, required: bool) {
    required && Trim(value) == ""
  }
  predicate PatternFails(value: string, v: Validation) {
    v.pattern.Some? && !v.pattern.value(value)
  }
  predicate MinFails(value: string, v: Validation) {
    TruthyInt(v.minLength) && |value| < v.minLength.value
  }
  predicate MaxFails(value: string, v: Validation) {
    TruthyInt(v.maxLength) && |value| > v.maxLength.value
  }

  /** Whether some check fails. */
  predicate AnyFails(value: string, required: bool, v: Validation) {
    RequiredFails(value, required) || PatternFails(value, v) || MinFails(value, v) || MaxFails(value, v)
  }

  /** The pattern's message: the one given, or `'Invalid format'` when it
      is missing or empty. */
  function PatternMessage(v: Validation): (m: string)
    ensures m != ""
  {
    if TruthyText(v.message) then v.message.value else DefaultPatternMessage
  }

  function MinMessage(n: int): string {
    "Must be at least " + IntToString(n) + " characters"
  }

  function MaxMessage(n: int): string {
    "Must be less than " + IntToString(n) + " characters"
  }

  /** `validateField`: without settings the field is valid and nothing is
      touched; otherwise the checks run as required, pattern, minimum,
      maximum, and the first to fail sets its message. */
  function ValidateField(st: FieldState, value: string, required: bool, validation: Option<Validation>): (r: (bool, FieldState))
    ensures r.1.isDirty == st.isDirty
    ensures validation.None? ==> r == (true, st)
    ensures validation.Some? ==> r.1.isValid == r.0
    ensures validation.Some? ==> (r.0 <==> !AnyFails(value, required, validation.value))
    ensures validation.Some? ==> (r.1.localError == "" <==> r.0)
    ensures validation.Some? && RequiredFails(value, required) ==> r.1.localError == RequiredMessage
  {
    if validation.None? then (true, st)
    else
      var v := validation.value;
      if RequiredFails(value, required) then (false, st.(localError := RequiredMessage, isValid := false))
      else if PatternFails(value, v) then (false, st.(localError := PatternMessage(v), isValid := false))
      else if MinFails(value, v) then (false, st.(localError := MinMessage(v.minLength.value), isValid := false))
      else if MaxFails(value, v) then (false, st.(localError := MaxMessage(v.maxLength.value), isValid := false))
      else (true, st.(localError := "", isValid := true))
  }

  /** The message reported is that of the first failing check in the order
      required, pattern, minimum, maximum. */
  lemma FirstFailureReported(st: FieldState, value: string, required: bool, v: Validation)
    ensures var e := ValidateField(st, value, required, Some(v)).1.localError;
      (!RequiredFails(value, required) && PatternFails(value, v) ==> e == PatternMessage(v))
      && (!RequiredFails(value, required) && !PatternFails(value, v) && MinFails(value, v) ==> e == MinMessage(v.minLength.value))
      && (!RequiredFails(value, required) && !PatternFails(value, v) && !MinFails(value, v) && MaxFails(value, v)
          ==> e == MaxMessage(v.maxLength.value))
  {
  }

  /** Without settings even a required empty field is valid. */
  lemma NoValidationAlwaysValid(st: FieldState)
    ensures ValidateField(st, "", true, None).0
  {
  }

  /** A limit of 0 is no limit. */
  lemma ZeroLimitsIgnored(st: FieldState, value: string, required: bool, v: Validation)
    ensures ValidateField(st, value, required, Some(v.(minLength := Some(0)))) == ValidateField(st, value, required, Some(v.(minLength := None)))
    ensures ValidateField(st, value, required, Some(v.(maxLength := Some(0)))) == ValidateField(st, value, required, Some(v.(maxLength := None)))
  {
  }

  /** `handleChange`: revalidate only once the field has been blurred. */
  function OnChange(st: FieldState, value: string, required: bool, validation: Option<Validation>): (t: FieldState)
    ensures !st.isDirty ==> t == st
    ensures st.isDirty ==> t == ValidateField(st, value, required, validation).1
  {
    if st.isDirty then ValidateField(st, value, required, validation).1 else st
  }

  /** `handleBlur`: mark the field dirty and validate. */
  function OnBlur(st: FieldState, value: string, required: bool, validation: Option<Validation>): (t: FieldState)
    ensures t.isDirty
    ensures validation.Some? ==> (t.isValid <==> !AnyFails(value, required, validation.value))
  {
    ValidateField(st.(isDirty := true), value, required, validation).1
  }

  /** After a blur, typing keeps the shown error in step with the value. */
  lemma ChangeAfterBlurRevalidates(st: FieldState, first: string, second: string, required: bool, v: Validation)
    ensures var t := OnChange(OnBlur(st, first, required, Some(v)), second, required, Some(v));
      (t.localError == "" <==> !AnyFails(second, required, v)) && t.isDirty
  {
  }

  /** Before any blur, typing leaves the error as it was, even when the new
      value fails. */
  lemma ChangeBeforeBlurIgnored(st: FieldState, value: string, required: bool, validation: Option<Validation>)
    requires !st.isDirty
    ensures OnChange(st, value, required, validation).localError == st.localError
  {
  }

  /** `error || localError`: a non-empty error from the parent wins. */
  function DisplayError(error: Option<string>, localError: string): (e: string)
    ensures TruthyText(error) ==> e == error.value
    ensures !TruthyText(error) ==> e == localError
  {
    if TruthyText(error) then error.value else localError
  }
}
