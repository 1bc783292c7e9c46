/** The part of the Yup schema language the two form schemas use: string fields
    carrying `min`, `max`, `matches`, `oneOf([Yup.ref(..), null])` and `required`
    rules, validated field by field against the form's values. */
module Yup {
  import opened Wrappers
  import opened JsText
  import opened Regex

  /** A form's values: field name to text. A field missing from the map is
      `undefined`, which Yup calls absent. */
  type Values = map<string, string>

  function Lookup(values: Values, name: string): (v: Option<string>)
    ensures v.Some? <==> name in values
    ensures v.Some? ==> v.value == values[name]
  {
    if name in values then Some(values[name]) else None
  }

  /** One rule of a `Yup.string()` chain, with the message it reports. */
  datatype Rule =
    | Min(limit: nat, message: string)            // .min(limit, message)
    | Max(limit: nat, message: string)            // .max(limit, message)
    | Matches(pattern: Pattern, message: string)  // .matches(pattern, message)
    | OneOfRefOrNull(ref: string, message: string) // .oneOf([Yup.ref(ref), null], message)
    | Required(message: string)                   // .required(message)

  /** Whether a field whose value is `v` satisfies `r`. Every rule but `required`
      lets an absent value through; `min` and `max` measure JavaScript's `length`;
      `matches` does not exempt the empty string; a `oneOf` rule compares with the
      sibling field its reference names (`null` is listed too, but a text field
      never holds it). */
  predicate Passes(r: Rule, v: Option<string>, values: Values) {
    match r
    case Min(n, _) => v.None? || Utf16Length(v.value) >= n
    case Max(n, _) => v.None? || Utf16Length(v.value) <= n
    case Matches(p, _) => v.None? || Search(p, v.value)
    case OneOfRefOrNull(ref, _) => v.None? || v == Lookup(values, ref)
    case Required(_) => v.Some? && v.value != ""
  }

  /** The rules of a chain that `v` violates, in the order they are declared. */
  function Errors(rules: seq<Rule>, v: Option<string>, values: Values): (errs: seq<Rule>)
    ensures forall r :: r in errs <==> r in rules && !Passes(r, v, values)
    ensures errs == [] <==> forall r :: r in rules ==> Passes(r, v, values)
    ensures |errs| <= |rules|
  {
    if rules == [] then []
    else
      var rest := Errors(rules[1..], v, values);
      assert forall r :: r in rules <==> r == rules[0] || r in rules[1..];
      if Passes(rules[0], v, values) then rest else [rules[0]] + rest
  }

  /** The chain reports nothing exactly when each of its rules passes, rule by rule. */
  lemma NoErrorsIffEachPasses(rules: seq<Rule>, v: Option<string>, values: Values)
    ensures Errors(rules, v, values) == [] <==> forall i :: 0 <= i < |rules| ==> Passes(rules[i], v, values)
  {
    if Errors(rules, v, values) != [] {
      var r := Errors(rules, v, values)[0];
      assert r in Errors(rules, v, values);
      var i :| 0 <= i < |rules| && rules[i] == r;
    }
  }

  /** A field of an object schema: its name in the form and its rule chain. */
  datatype Field = Field(name: string, rules: seq<Rule>)

  /** The errors Yup reports for one field of the form. */
  function FieldErrors(f: Field, values: Values): seq<Rule> {
    Errors(f.rules, Lookup(values, f.name), values)
  }

  /** The form passes the object schema when no field reports an error. */
  predicate Accepts(schema: seq<Field>, values: Values) {
    forall f :: f in schema ==> FieldErrors(f, values) == []
  }

  /** A chain's verdict depends on the form only through the fields its `oneOf`
      references name. */
  lemma {:induction false} ErrorsDependOnlyOnRefs(rules: seq<Rule>, v: Option<string>, a: Values, b: Values)
    requires forall r :: r in rules && r.OneOfRefOrNull? ==> Lookup(a, r.ref) == Lookup(b, r.ref)
    ensures Errors(rules, v, a) == Errors(rules, v, b)
  {
    if rules != [] {
      assert rules[0] in rules;
      assert Passes(rules[0], v, a) == Passes(rules[0], v, b);
      assert forall r :: r in rules[1..] ==> r in rules;
      ErrorsDependOnlyOnRefs(rules[1..], v, a, b);
    }
  }
}
