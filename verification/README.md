# Plant-monitoring app: validation schemas and dashboard telemetry

A Dafny model of the parts of the plant-monitoring mobile client that carry rules
of their own:

- **The change-password form** (`changePasswordSchema`, `changePasswordInitialValue`).
  This is a Yup object schema. Old and new password are each 8 to 50 characters long.
  Each must hold an upper-case letter, a lower-case letter, a digit and one of `@$!%*?&`.
  No other character is allowed. The confirmation must repeat the new password, and
  all three fields are required.
- **The change-name form** (`changeInfoSchema`, `changeInfoInitialValue`). First and
  last name are each 2 to 50 ASCII letters. Neither is required.
- **The dashboard screen's telemetry.** The screen keeps four state cells: soil
  moisture, humidity, and temperature in Celsius and Fahrenheit. Each cell is written
  by its own realtime-database listener, which drops `null` snapshots. The screen also
  has a low-moisture test (`moisture !== null && moisture < 40`). That test drives the
  ring colour, the status line, and the mount-time notification. Finally, there is the
  notification document that `schedulePushNotification` writes.

How the model is laid out:

- `yup.dfy` states the Yup semantics both schemas rely on. A rule chain is a list of
  `Rule`s. Every rule except `required` lets an absent value through. `min` and `max`
  measure JavaScript's `length`, which counts UTF-16 code units (`js_text.dfy`).
  `oneOf([Yup.ref('password'), null])` compares with the sibling field.
- `regex.dfy` gives both regular expressions their JavaScript meaning. The expressions
  are `^(?=.*[..])…[..]+$`, where `.` refuses line terminators and `$` (without the `m`
  flag) matches only at the end. The module then proves what they accept, in plain
  character-class terms.
- `change_password.dfy` and `change_info.dfy` hold each schema as data, in its own
  field order and with its own messages. They also hold the lemmas that say what each
  field and each form accepts.
- `dashboard.dfy` models the four state cells as a class (`DashboardState`) with one
  callback method per metric. Each method is specified by the pure `Deliver`. Over a
  run of callbacks, `Replay` is proved equal to a last-good-value reference
  (`LastGood`).

One consequence that the proofs make explicit: the mount-time low-moisture check has
an empty dependency list. So it runs once, against the first render's moisture, and
that value is always the initial `null`. `MountCheckNeverFires` proves that this check
never schedules a notification.

The password rule also has a maximum of 50 characters and a whitelist of allowed
characters. The letters a name may hold are the ASCII letters `A-Z` and `a-z`.

Where each part of the source is written down:

- `changePasswordSchema` (src/components/validations/ChangePasswordValidation.js:9-29)
  is `ChangePasswordSchema`, built from `OldPasswordField`, `PasswordField` and
  `ConfirmPasswordField`. `changePasswordInitialValue` (lines 3-7) is
  `ChangePasswordInitialValues`. All of these are in `change_password.dfy`, lines 8-34.
- `changeInfoSchema` (src/components/validations/ChangeInfoValidation.js:8-17) is
  `ChangeInfoSchema`, built from `FirstNameField` and `LastNameField`.
  `changeInfoInitialValue` (lines 3-6) is `ChangeInfoInitialValues`. These are in
  `change_info.dfy`, lines 8-23.
- The low-moisture test that src/screens/DashboardScreen.js repeats at lines 165, 222
  and 242 is `Dashboard.NeedsWater`. The four `useState(null)` cells (lines 37-40) are
  `Dashboard.DashboardState`.

## Model

| member | source | states |
|---|---|---|
| `JsText.Utf16Length` | src/components/validations/ChangePasswordValidation.js:11-12 | the length `min`/`max` measure lies between the character count and twice it |
| `JsText.Utf16LengthIsCount` | src/components/validations/ChangeInfoValidation.js:10-11 | that length equals the character count exactly when every character is in the Basic Multilingual Plane |
| `JsText.NatToString` | src/screens/DashboardScreen.js:260 | a rendered `Date.now()` is a non-empty run of decimal digits with no leading zero |
| `JsText.NatToStringRoundTrip` | src/screens/DashboardScreen.js:260 | reading the rendered digits back gives the number |
| `JsText.NatToStringInjective` | src/screens/DashboardScreen.js:260 | different times never render to the same text |
| `Regex.LookaheadMatchesIff` | src/components/validations/ChangePasswordValidation.js:14 | `(?=.*[k])` succeeds iff a character of `k` occurs before any line terminator |
| `Regex.RepeatToEndIff` | src/components/validations/ChangePasswordValidation.js:14 | `[k]+$` matches iff the string is non-empty and made only of `k` |
| `Regex.LookaheadOnSingleLine` | src/components/validations/ChangePasswordValidation.js:14 | on a string without line terminators the lookahead just asks that `k` occur |
| `Regex.StrongPasswordSearchIff` | src/components/validations/ChangePasswordValidation.js:22 | the password regex matches iff the string is non-empty, only `[A-Za-z0-9@$!%*?&]`, and has an upper, a lower, a digit and a special character |
| `Regex.LettersSearchIff` | src/components/validations/ChangeInfoValidation.js:12 | the name regex matches iff the string is non-empty ASCII letters |
| `Yup.Errors` | src/components/validations/ChangePasswordValidation.js:9-28 | a rule is reported iff it is in the chain and the value violates it; nothing is reported iff every rule passes |
| `Yup.NoErrorsIffEachPasses` | src/components/validations/ChangePasswordValidation.js:9-28 | a chain reports nothing iff each of its rules passes, by position |
| `Yup.ErrorsDependOnlyOnRefs` | src/components/validations/ChangePasswordValidation.js:27 | a chain's verdict depends on the rest of the form only through the fields its `oneOf` references name |
| `ChangePasswordValidation.OldPasswordHasPasswordRules` | src/components/validations/ChangePasswordValidation.js:10-25 | the old password carries exactly the new password's rule chain, with no cross-field reference |
| `ChangePasswordValidation.PasswordRuleConditionsIff` | src/components/validations/ChangePasswordValidation.js:19-24 | min 8, max 50, the pattern and non-emptiness together are exactly `StrongPassword` |
| `ChangePasswordValidation.PasswordChainAcceptsIff` | src/components/validations/ChangePasswordValidation.js:18-25 | the password chain accepts a value iff it is present and a strong password (8-50 chars, four classes, whitelist) |
| `ChangePasswordValidation.PasswordFieldsAcceptIff` | src/components/validations/ChangePasswordValidation.js:10-25 | the oldPassword and password fields each accept iff their own value is present and strong |
| `ChangePasswordValidation.ConfirmPasswordAcceptsIff` | src/components/validations/ChangePasswordValidation.js:26-28 | the confirmation is accepted iff present, non-empty and equal to the new password |
| `ChangePasswordValidation.ChangePasswordAcceptsIff` | src/components/validations/ChangePasswordValidation.js:9-29 | the form passes iff all three are present, both passwords are strong and the confirmation equals the new one |
| `ChangePasswordValidation.EmptyFieldsAreRequired` | src/components/validations/ChangePasswordValidation.js:10-28 | an empty or absent value makes any of the three fields report "Required", so the form fails |
| `ChangePasswordValidation.InitialValuesRejected` | src/components/validations/ChangePasswordValidation.js:3-7 | the all-empty initial values report "Required" on every field and are not accepted |
| `ChangePasswordValidation.FieldVerdictsAreLocal` | src/components/validations/ChangePasswordValidation.js:9-28 | oldPassword's and password's verdicts depend only on their own values; confirmPassword's only on itself and password |
| `ChangePasswordValidation.StrongPasswordExample` | src/components/validations/ChangePasswordValidation.js:18-25 | "Abcdef1!" is accepted |
| `ChangePasswordValidation.DisallowedCharacterRejected` | src/components/validations/ChangePasswordValidation.js:22 | a password of acceptable length holding a character outside the whitelist is refused by the pattern and by nothing else |
| `ChangeInfoValidation.NameRuleConditionsIff` | src/components/validations/ChangeInfoValidation.js:10-12 | min 2, max 50 and the pattern together are exactly `LetterName` (2-50 ASCII letters) |
| `ChangeInfoValidation.NameFieldAcceptsIff` | src/components/validations/ChangeInfoValidation.js:9-16 | first and last name each accept iff their value is absent (no `required`) or 2-50 ASCII letters |
| `ChangeInfoValidation.ChangeInfoAcceptsIff` | src/components/validations/ChangeInfoValidation.js:8-17 | the form passes iff each name is absent or a letter name; a form with neither name passes |
| `ChangeInfoValidation.LengthMessages` | src/components/validations/ChangeInfoValidation.js:10-11 | "Too Short!" is reported iff the length is below 2, "Too Long!" iff above 50 |
| `ChangeInfoValidation.OneAndFiftyOneLetters` | src/components/validations/ChangeInfoValidation.js:10-12 | a one-letter name reports only "Too Short!", a 51-letter name only "Too Long!" |
| `ChangeInfoValidation.OneEmojiName` | src/components/validations/ChangeInfoValidation.js:10-12 | a one-emoji name has JavaScript length 2, so only the pattern refuses it |
| `ChangeInfoValidation.EmptyNameErrors` | src/components/validations/ChangeInfoValidation.js:10-12 | an empty name reports the minimum-length rule and the pattern, in that order |
| `ChangeInfoValidation.InitialValuesRejected` | src/components/validations/ChangeInfoValidation.js:3-6 | Yup applied directly to the initial values rejects them: both fields fail the length rule and the pattern |
| `ChangeInfoValidation.NameVerdictsAreLocal` | src/components/validations/ChangeInfoValidation.js:8-17 | each name's verdict depends only on that name |
| `Dashboard.Deliver` | src/screens/DashboardScreen.js:70-75 | a callback replaces its own metric's reading with a non-null value, keeps it on null, and leaves the other three unchanged |
| `Dashboard.ReplaySnoc` | src/screens/DashboardScreen.js:67-125 | delivering one more snapshot after a run is the run followed by that snapshot |
| `Dashboard.ReplayKeepsLastGood` | src/screens/DashboardScreen.js:67-125 | after any run of callbacks each metric holds its latest non-null snapshot, or its earlier value if none came |
| `Dashboard.NoGoodReading` | src/screens/DashboardScreen.js:72-73 | with no non-null snapshot of a metric, the last good value is the initial one |
| `Dashboard.NullUntilFirstReading` | src/screens/DashboardScreen.js:37-40 | from mount, a metric stays null until a non-null snapshot of it arrives |
| `Dashboard.PlantStatus` | src/screens/DashboardScreen.js:222-242 | the ring is red iff moisture is non-null and below 40; the text is "Water your plant" iff red, else "The plant is doing well" |
| `Dashboard.NotificationKey` | src/screens/DashboardScreen.js:260 | the key is the uid, a `-`, then the digits of the clock reading, which read back as that reading |
| `Dashboard.BuildNotification` | src/screens/DashboardScreen.js:259-266 | the record has the fixed title, the moisture passed in, the stamp clock reading, and a key from a separate clock reading |
| `Dashboard.NotificationKeyInjective` | src/screens/DashboardScreen.js:260 | for any uids, equal keys mean the same user and the same millisecond |
| `Dashboard.MountCheck` | src/screens/DashboardScreen.js:164-168 | a notification is built iff the status is red, and then it carries the moisture seen |
| `Dashboard.MountCheckNeverFires` | src/screens/DashboardScreen.js:164-168 | run against the initial null moisture, the mount-time check never schedules a notification |
| `Dashboard.DashboardState.constructor` | src/screens/DashboardScreen.js:37-40 | all four readings start null |
| `Dashboard.DashboardState.OnMoisture` | src/screens/DashboardScreen.js:70-75 | the moisture listener's effect on the state is `Deliver` of a moisture snapshot |
| `Dashboard.DashboardState.OnHumidity` | src/screens/DashboardScreen.js:85-90 | the humidity listener's effect on the state is `Deliver` of a humidity snapshot |
| `Dashboard.DashboardState.OnCelsius` | src/screens/DashboardScreen.js:100-105 | the Celsius listener's effect on the state is `Deliver` of a Celsius snapshot |
| `Dashboard.DashboardState.OnFahrenheit` | src/screens/DashboardScreen.js:115-120 | the Fahrenheit listener's effect on the state is `Deliver` of a Fahrenheit snapshot |

## Left out

- Backend calls are not modelled: sign-in, re-authentication, the password and profile updates the forms submit, Firestore reads and writes (including `setDoc` of the notification document and its overwrite semantics), realtime-database subscription, and storage upload. The record `setDoc` would write is modelled; the write is not.
- Listener unsubscription on unmount (src/screens/DashboardScreen.js:77-79, 127-139) is not modelled. Callbacks are sequential method calls with no concurrency.
- `registerForPushNotificationsAsync` and the Expo `scheduleNotificationAsync` call, with its alert content and 10-second trigger, are not modelled. These are operating-system and SDK calls.
- `fetchUserData`, the profile header, the progress value `moisture / 100` (floating point) and the rendered reading texts are left out.
- Readings are exact reals. A snapshot of some other JSON type (a string, an object) and JavaScript's coercion in `moisture < 40` are not modelled.
- The uid is a plain parameter. A signed-out `authUser` (a `null` whose `.uid` would throw) is not modelled; the check that would read it never fires anyway.
- The form library (Formik) sits between the forms and Yup, and it is not part of this model. Before it runs Yup, it turns every empty text value into an absent one. The lemmas here apply Yup to whatever values they are given. So as the forms actually run:
  - An untouched or cleared name field is absent, and it passes. `ChangeInfoAcceptsIff` proves that a form with neither name is accepted. The untouched change-name form therefore validates, and its submit handler writes empty names.
  - `ChangeInfoValidation.InitialValuesRejected` and `ChangeInfoValidation.EmptyNameErrors` describe Yup fed `""` directly. That is not what the running form hands it.
  - The password fields still fail when empty, because `required` also refuses an absent value.
- Which single message the form shows when a field reports several errors is decided by the form library and is not modelled.
- `Yup.Errors` runs every rule of a chain and lists each one that fails, in declaration order. Some Yup versions run `oneOf` as an internal check that ends the chain when it fails. On those versions a mismatched confirmation reports only "Passwords must match". In particular, an empty confirmation next to a non-empty password would not also report "Required". `EmptyFieldsAreRequired` assumes the run-every-rule reading.
- The title's emoji is taken as U+1F331 (seedling). src/screens/DashboardScreen.js:263 holds its UTF-8 bytes, which read as cp1252 show as four other characters.
- Characters outside the Basic Multilingual Plane are single characters here. JavaScript's regular expressions see two surrogate code units instead. Neither the two units nor the one character falls in any class of these patterns, and none is a line terminator, so the verdicts agree. `Utf16Length` counts them twice, as JavaScript does.
- The other screens and modals, navigation, styles and configuration are not part of this model.
- The register schema (`RegisterValidation.js`) is not modelled.
