/** The change-name form: its initial values and its Yup object schema. */
module ChangeInfoValidation {
  import opened Wrappers
  import opened JsText
  import opened Regex
  import opened Yup

  const TooShort := "Too Short!"
  const TooLong := "Too Long!"

  const FirstNameField := Field("firstName", [
    Min(2, TooShort),
    Max(50, TooLong),
    Matches(LettersPattern, "First name can only contain letters")])

  const LastNameField := Field("lastName", [
    Min(2, TooShort),
    Max(50, TooLong),
    Matches(LettersPattern, "Last name can only contain letters")])

  const ChangeInfoSchema := [FirstNameField, LastNameField]

  const ChangeInfoInitialValues: Values := map["firstName" := "", "lastName" := ""]

  /** What an accepted name is, in plain terms: 2 to 50 characters, all ASCII letters. */
  predicate LetterName(s: string) {
    2 <= |s| <= 50 && Only(s, Letter)
  }

  predicate IsNameField(f: Field) {
    f == FirstNameField || f == LastNameField
  }

  /** Either name field accepts exactly an absent value (neither field is
      required) or a name of 2 to 50 ASCII letters, whatever the other field holds. */
  lemma NameFieldAcceptsIff(f: Field, values: Values)
    requires IsNameField(f)
    ensures FieldErrors(f, values) == [] <==>
      f.name !in values || LetterName(values[f.name])
  {
    var v := Lookup(values, f.name);
    var rules := f.rules;
    NoErrorsIffEachPasses(rules, v, values);
    if v.Some? {
      var s := v.value;
      assert Passes(rules[0], v, values) <==> Utf16Length(s) >= 2;
      assert Passes(rules[1], v, values) <==> Utf16Length(s) <= 50;
      assert Passes(rules[2], v, values) <==> Search(LettersPattern, s);
      NameRuleConditionsIff(s);
    }
  }

  /** The three rule conditions on a present name, taken together, say exactly
      `LetterName`: letters are one-unit characters, so the JavaScript length is
      the character count. */
  lemma NameRuleConditionsIff(s: string)
    ensures (Utf16Length(s) >= 2 && Utf16Length(s) <= 50 && Search(LettersPattern, s)) <==> LetterName(s)
  {
    LettersSearchIff(s);
    if Only(s, Letter) {
      assert forall i :: 0 <= i < |s| ==> InBmp(s[i]);
      Utf16LengthIsCount(s);
    }
  }

  /** The form is accepted exactly when each name is absent or a letters-only name
      of acceptable length; in particular a form holding neither name passes. */
  lemma ChangeInfoAcceptsIff(values: Values)
    ensures Accepts(ChangeInfoSchema, values) <==>
      ("firstName" !in values || LetterName(values["firstName"]))
      && ("lastName" !in values || LetterName(values["lastName"]))
    ensures Accepts(ChangeInfoSchema, map[])
  {
    NameFieldAcceptsIff(FirstNameField, values);
    NameFieldAcceptsIff(LastNameField, values);
    NameFieldAcceptsIff(FirstNameField, map[]);
    NameFieldAcceptsIff(LastNameField, map[]);
  }

  /** "Too Short!" is reported exactly for a present name shorter than two
      JavaScript characters, "Too Long!" exactly for one longer than fifty. */
  lemma LengthMessages(f: Field, values: Values)
    requires IsNameField(f) && f.name in values
    ensures Min(2, TooShort) in FieldErrors(f, values) <==> Utf16Length(values[f.name]) < 2
    ensures Max(50, TooLong) in FieldErrors(f, values) <==> Utf16Length(values[f.name]) > 50
  {
    assert Min(2, TooShort) in f.rules && Max(50, TooLong) in f.rules;
  }

  /** A one-letter name is only "Too Short!"; a 51-letter name is only "Too Long!". */
  lemma OneAndFiftyOneLetters(f: Field, values: Values)
    requires IsNameField(f) && f.name in values
    requires Only(values[f.name], Letter) && (|values[f.name]| == 1 || |values[f.name]| == 51)
    ensures forall r :: r in FieldErrors(f, values) <==>
      r == (if |values[f.name]| == 1 then Min(2, TooShort) else Max(50, TooLong))
  {
    var s := values[f.name];
    var v := Some(s);
    var rules := f.rules;
    assert forall i :: 0 <= i < |s| ==> InBmp(s[i]);
    Utf16LengthIsCount(s);
    LettersSearchIff(s);
    assert Passes(rules[2], v, values);
  }

  /** JavaScript counts a character outside the Basic Multilingual Plane twice, so
      a name made of one emoji is not "Too Short!": only the pattern refuses it. */
  lemma OneEmojiName(f: Field, values: Values)
    requires IsNameField(f) && f.name in values
    requires |values[f.name]| == 1 && !InBmp(values[f.name][0])
    ensures forall r :: r in FieldErrors(f, values) <==> r == f.rules[2]
  {
    var s := values[f.name];
    var v := Some(s);
    var rules := f.rules;
    assert s[1..] == [];
    assert Utf16Length(s) == 2;
    assert !InClass(s[0], Letter);
    LettersSearchIff(s);
    assert !Passes(rules[2], v, values);
  }

  /** The empty initial values fail the length rule and the pattern of both fields. */
  lemma InitialValuesRejected()
    ensures forall f :: f in ChangeInfoSchema ==> FieldErrors(f, ChangeInfoInitialValues) == [f.rules[0], f.rules[2]]
    ensures !Accepts(ChangeInfoSchema, ChangeInfoInitialValues)
  {
    forall f | f in ChangeInfoSchema
      ensures FieldErrors(f, ChangeInfoInitialValues) == [f.rules[0], f.rules[2]]
    {
      EmptyNameErrors(f, ChangeInfoInitialValues);
    }
    EmptyNameErrors(FirstNameField, ChangeInfoInitialValues);
  }

  /** A present but empty name fails the minimum length and the pattern, in that order. */
  lemma EmptyNameErrors(f: Field, values: Values)
    requires IsNameField(f) && Lookup(values, f.name) == Some("")
    ensures FieldErrors(f, values) == [f.rules[0], f.rules[2]]
  {
    var v := Some("");
    var rules := f.rules;
    assert !Search(LettersPattern, "");
    assert rules[3..] == [];
    assert Errors(rules[2..], v, values) == [rules[2]] + Errors(rules[3..], v, values);
    assert rules[2..][1..] == rules[3..];
    assert rules[1..][1..] == rules[2..];
    assert Errors(rules[1..], v, values) == Errors(rules[2..], v, values);
  }

  /** Each name's verdict looks only at that name. */
  lemma NameVerdictsAreLocal(a: Values, b: Values)
    ensures Lookup(a, "firstName") == Lookup(b, "firstName") ==>
      FieldErrors(FirstNameField, a) == FieldErrors(FirstNameField, b)
    ensures Lookup(a, "lastName") == Lookup(b, "lastName") ==>
      FieldErrors(LastNameField, a) == FieldErrors(LastNameField, b)
  {
    ErrorsDependOnlyOnRefs(FirstNameField.rules, Lookup(a, "firstName"), a, b);
    ErrorsDependOnlyOnRefs(LastNameField.rules, Lookup(a, "lastName"), a, b);
  }
}
