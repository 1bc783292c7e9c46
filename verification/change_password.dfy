/** The change-password form: its initial values and its Yup object schema. */
module ChangePasswordValidation {
  import opened Wrappers
  import opened JsText
  import opened Regex
  import opened Yup

  const TooShortMessage := "Password must be at least 8 characters"
  const TooLongMessage := "Password is too long"
  const PatternMessage :=
    "Password must contain at least one uppercase letter, one lowercase letter, one number, and one special character"
  const MismatchMessage := "Passwords must match"
  const RequiredMessage := "Required"

  const OldPasswordField := Field("oldPassword", [
    Min(8, TooShortMessage),
    Max(50, TooLongMessage),
    Matches(StrongPasswordPattern, PatternMessage),
    Required(RequiredMessage)])

  const PasswordField := Field("password", [
    Min(8, TooShortMessage),
    Max(50, TooLongMessage),
    Matches(StrongPasswordPattern, PatternMessage),
    Required(RequiredMessage)])

  const ConfirmPasswordField := Field("confirmPassword", [
    OneOfRefOrNull("password", MismatchMessage),
    Required(RequiredMessage)])

  const ChangePasswordSchema := [OldPasswordField, PasswordField, ConfirmPasswordField]

  const ChangePasswordInitialValues: Values :=
    map["oldPassword" := "", "password" := "", "confirmPassword" := ""]

  /** What an accepted password is, in plain terms: 8 to 50 characters, at least
      one upper-case letter, one lower-case letter, one digit and one of `@$!%*?&`,
      and no character outside those four classes. */
  predicate StrongPassword(s: string) {
    8 <= |s| <= 50
    && Contains(s, Upper) && Contains(s, Lower) && Contains(s, Digit) && Contains(s, Special)
    && Only(s, PasswordChar)
  }

  /** The old and the new password are held to the very same chain of rules. */
  lemma OldPasswordHasPasswordRules()
    ensures OldPasswordField.rules == PasswordField.rules
    ensures forall r :: r in PasswordField.rules ==> !r.OneOfRefOrNull?
  {
  }

  /** A password chain accepts a value exactly when it is present and a strong password. */
  lemma PasswordChainAcceptsIff(v: Option<string>, values: Values)
    ensures Errors(PasswordField.rules, v, values) == [] <==> v.Some? && StrongPassword(v.value)
  {
    var rules := PasswordField.rules;
    NoErrorsIffEachPasses(rules, v, values);
    if v.Some? {
      var s := v.value;
      assert Passes(rules[0], v, values) <==> Utf16Length(s) >= 8;
      assert Passes(rules[1], v, values) <==> Utf16Length(s) <= 50;
      assert Passes(rules[2], v, values) <==> Search(StrongPasswordPattern, s);
      assert Passes(rules[3], v, values) <==> s != "";
      PasswordRuleConditionsIff(s);
    } else {
      assert !Passes(rules[3], v, values);
    }
  }

  /** The four rule conditions on a present value, taken together, say exactly
      `StrongPassword`: the pattern admits only one-unit characters, so the
      JavaScript length is the character count. */
  lemma PasswordRuleConditionsIff(s: string)
    ensures (Utf16Length(s) >= 8 && Utf16Length(s) <= 50 && Search(StrongPasswordPattern, s) && s != "")
      <==> StrongPassword(s)
  {
    StrongPasswordSearchIff(s);
    if Only(s, PasswordChar) {
      assert forall i :: 0 <= i < |s| ==> InBmp(s[i]);
      Utf16LengthIsCount(s);
    }
  }

  /** Both the old-password and the new-password field accept exactly a present,
      strong password, whatever the other fields hold. */
  lemma PasswordFieldsAcceptIff(f: Field, values: Values)
    requires f == OldPasswordField || f == PasswordField
    ensures FieldErrors(f, values) == [] <==>
      f.name in values && StrongPassword(values[f.name])
  {
    PasswordChainAcceptsIff(Lookup(values, f.name), values);
  }

  /** The confirmation is accepted exactly when it is present, non-empty and equal
      to the new password; whether the new password is itself acceptable does not
      enter into it. */
  lemma ConfirmPasswordAcceptsIff(values: Values)
    ensures FieldErrors(ConfirmPasswordField, values) == [] <==>
      "confirmPassword" in values && values["confirmPassword"] != ""
      && "password" in values && values["confirmPassword"] == values["password"]
  {
    var rules := ConfirmPasswordField.rules;
    assert rules[0] in rules && rules[1] in rules;
  }

  /** The whole form is accepted exactly when all three fields are present, both
      passwords are strong and the confirmation repeats the new password. */
  lemma ChangePasswordAcceptsIff(values: Values)
    ensures Accepts(ChangePasswordSchema, values) <==>
      "oldPassword" in values && "password" in values && "confirmPassword" in values
      && StrongPassword(values["oldPassword"]) && StrongPassword(values["password"])
      && values["confirmPassword"] == values["password"]
  {
    PasswordFieldsAcceptIff(OldPasswordField, values);
    PasswordFieldsAcceptIff(PasswordField, values);
    ConfirmPasswordAcceptsIff(values);
  }

  /** Every field is required: an empty or absent value makes each field report
      its "Required" error, so the initial all-empty form is not accepted. */
  lemma EmptyFieldsAreRequired(f: Field, values: Values)
    requires f in ChangePasswordSchema
    requires Lookup(values, f.name) == None || Lookup(values, f.name) == Some("")
    ensures Required(RequiredMessage) in FieldErrors(f, values)
    ensures !Accepts(ChangePasswordSchema, values)
  {
    assert Required(RequiredMessage) in f.rules;
  }

  /** The initial values report every field's "Required" error. */
  lemma InitialValuesRejected()
    ensures forall f :: f in ChangePasswordSchema ==>
      Required(RequiredMessage) in FieldErrors(f, ChangePasswordInitialValues)
    ensures !Accepts(ChangePasswordSchema, ChangePasswordInitialValues)
  {
    forall f | f in ChangePasswordSchema
      ensures Required(RequiredMessage) in FieldErrors(f, ChangePasswordInitialValues)
    {
      EmptyFieldsAreRequired(f, ChangePasswordInitialValues);
    }
    EmptyFieldsAreRequired(OldPasswordField, ChangePasswordInitialValues);
  }

  /** Each field's verdict looks at the form only where the schema says: the old
      password and the new password at themselves, the confirmation at itself and
      the new password. */
  lemma FieldVerdictsAreLocal(a: Values, b: Values)
    ensures Lookup(a, "oldPassword") == Lookup(b, "oldPassword") ==>
      FieldErrors(OldPasswordField, a) == FieldErrors(OldPasswordField, b)
    ensures Lookup(a, "password") == Lookup(b, "password") ==>
      FieldErrors(PasswordField, a) == FieldErrors(PasswordField, b)
    ensures (Lookup(a, "confirmPassword") == Lookup(b, "confirmPassword")
             && Lookup(a, "password") == Lookup(b, "password")) ==>
      FieldErrors(ConfirmPasswordField, a) == FieldErrors(ConfirmPasswordField, b)
  {
    OldPasswordHasPasswordRules();
    ErrorsDependOnlyOnRefs(PasswordField.rules, Lookup(a, "oldPassword"), a, b);
    ErrorsDependOnlyOnRefs(PasswordField.rules, Lookup(a, "password"), a, b);
    var rules := ConfirmPasswordField.rules;
    if Lookup(a, "password") == Lookup(b, "password") {
      ErrorsDependOnlyOnRefs(rules, Lookup(a, "confirmPassword"), a, b);
    }
  }

  /** A password with every required kind of character is accepted; "Abcdef1!" is one. */
  lemma StrongPasswordExample(s: string)
    requires s == "Abcdef1!"
    ensures Errors(PasswordField.rules, Some(s), map[]) == []
  {
    assert InClass(s[0], Upper) && InClass(s[1], Lower);
    assert InClass(s[6], Digit) && InClass(s[7], Special);
    PasswordChainAcceptsIff(Some(s), map[]);
  }

  /** A password of acceptable length holding any character outside
      `[A-Za-z0-9@$!%*?&]` (a space, `#`, `-`, an accented letter) is refused,
      and by the pattern rule alone. */
  lemma DisallowedCharacterRejected(s: string, values: Values)
    requires 8 <= Utf16Length(s) <= 50
    requires exists i :: 0 <= i < |s| && !InClass(s[i], PasswordChar)
    ensures forall r :: r in Errors(PasswordField.rules, Some(s), values) <==>
      r == Matches(StrongPasswordPattern, PatternMessage)
  {
    var v := Some(s);
    var rules := PasswordField.rules;
    RepeatToEndIff(s, PasswordChar);
    assert !Passes(rules[2], v, values);
    assert Passes(rules[0], v, values) && Passes(rules[1], v, values) && Passes(rules[3], v, values);
  }
}
