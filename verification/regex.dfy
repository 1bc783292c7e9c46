/** The two regular expressions of the validation schemas, as JavaScript
    evaluates them with `String.prototype.search` (no flags):

      /^(?=.*[A-Z])(?=.*[a-z])(?=.*\d)(?=.*[@$!%*?&])[A-Za-z\d@$!%*?&]+$/
      /^[A-Za-z]+$/

    Both have the shape `^(?=.*[k1])...(?=.*[kn])[body]+$`, which `Pattern` captures. */
module Regex {
  import opened JsText

  /** The bracketed character classes the two expressions use. */
  datatype CharClass =
    | Upper         // [A-Z]
    | Lower         // [a-z]
    | Digit         // \d, which is [0-9] only
    | Special       // [@$!%*?&]
    | PasswordChar  // [A-Za-z\d@$!%*?&]
    | Letter        // [A-Za-z]

  predicate IsUpper(c: char) { 'A' <= c <= 'Z' }
  predicate IsLower(c: char) { 'a' <= c <= 'z' }
  predicate IsSpecial(c: char) { c in "@$!%*?&" }

  predicate InClass(c: char, k: CharClass) {
    match k
    case Upper => IsUpper(c)
    case Lower => IsLower(c)
    case Digit => IsDecimalDigit(c)
    case Special => IsSpecial(c)
    case PasswordChar => IsUpper(c) || IsLower(c) || IsDecimalDigit(c) || IsSpecial(c)
    case Letter => IsUpper(c) || IsLower(c)
  }

  /** `^(?=.*[k1])...(?=.*[kn])[body]+$` */
  datatype Pattern = Anchored(lookaheads: seq<CharClass>, body: CharClass)

  const StrongPasswordPattern := Anchored([Upper, Lower, Digit, Special], PasswordChar)
  const LettersPattern := Anchored([], Letter)

  /** `(?=.*[k])` tried at the start of `s`: `.` steps over any character but a
      line terminator until a character of `k` is found. */
  predicate LookaheadMatches(s: string, k: CharClass)
    decreases |s|
  {
    |s| > 0 && (InClass(s[0], k) || (!IsLineTerminator(s[0]) && LookaheadMatches(s[1..], k)))
  }

  /** `[k]+$` at the start of `s`: one or more characters of `k`, then the end
      of the input (without the `m` flag `$` matches only there). */
  predicate RepeatToEnd(s: string, k: CharClass)
    decreases |s|
  {
    |s| > 0 && InClass(s[0], k) && (|s| == 1 || RepeatToEnd(s[1..], k))
  }

  /** `s.search(p) !== -1`. With the leading `^` and no `m` flag a match can only
      start at index 0, and the lookaheads consume nothing. */
  predicate Search(p: Pattern, s: string) {
    (forall i :: 0 <= i < |p.lookaheads| ==> LookaheadMatches(s, p.lookaheads[i]))
    && RepeatToEnd(s, p.body)
  }

  /** Some character of `s` lies in `k`. */
  predicate Contains(s: string, k: CharClass) {
    exists i :: 0 <= i < |s| && InClass(s[i], k)
  }

  /** Every character of `s` lies in `k`. */
  predicate Only(s: string, k: CharClass) {
    forall i :: 0 <= i < |s| ==> InClass(s[i], k)
  }

  /** The lookahead succeeds exactly when a character of `k` occurs before any line terminator. */
  lemma {:induction false} LookaheadMatchesIff(s: string, k: CharClass)
    ensures LookaheadMatches(s, k) <==>
      exists i :: 0 <= i < |s| && InClass(s[i], k) && forall j :: 0 <= j < i ==> !IsLineTerminator(s[j])
    decreases |s|
  {
    if s != [] {
      LookaheadMatchesIff(s[1..], k);
      if LookaheadMatches(s, k) && !InClass(s[0], k) {
        var i :| 0 <= i < |s[1..]| && InClass(s[1..][i], k)
          && forall j :: 0 <= j < i ==> !IsLineTerminator(s[1..][j]);
        assert InClass(s[i + 1], k);
        forall j | 0 <= j < i + 1 ensures !IsLineTerminator(s[j]) {
          if j > 0 { assert s[j] == s[1..][j - 1]; }
        }
      }
      if exists i :: 0 <= i < |s| && InClass(s[i], k) && forall j :: 0 <= j < i ==> !IsLineTerminator(s[j]) {
        var i :| 0 <= i < |s| && InClass(s[i], k) && forall j :: 0 <= j < i ==> !IsLineTerminator(s[j]);
        if i > 0 {
          assert InClass(s[1..][i - 1], k);
          assert forall j :: 0 <= j < i - 1 ==> !IsLineTerminator(s[1..][j]) by {
            forall j | 0 <= j < i - 1 ensures !IsLineTerminator(s[1..][j]) { assert s[1..][j] == s[j + 1]; }
          }
        }
      }
    }
  }

  /** `[k]+$` matches exactly the non-empty strings made only of characters of `k`. */
  lemma {:induction false} RepeatToEndIff(s: string, k: CharClass)
    ensures RepeatToEnd(s, k) <==> s != [] && Only(s, k)
    decreases |s|
  {
    if |s| > 1 {
      RepeatToEndIff(s[1..], k);
      if Only(s, k) {
        assert Only(s[1..], k) by {
          forall i | 0 <= i < |s[1..]| ensures InClass(s[1..][i], k) { assert s[1..][i] == s[i + 1]; }
        }
      }
      if RepeatToEnd(s, k) {
        forall i | 0 <= i < |s| ensures InClass(s[i], k) {
          if i > 0 { assert s[i] == s[1..][i - 1]; }
        }
      }
    }
  }

  /** None of the password characters is a line terminator. */
  lemma PasswordCharsAreNotLineTerminators(c: char)
    requires InClass(c, PasswordChar)
    ensures !IsLineTerminator(c)
  {
  }

  /** On a string that holds no line terminator, `(?=.*[k])` just asks that `k` occur. */
  lemma LookaheadOnSingleLine(s: string, k: CharClass)
    requires forall j :: 0 <= j < |s| ==> !IsLineTerminator(s[j])
    ensures LookaheadMatches(s, k) <==> Contains(s, k)
  {
    LookaheadMatchesIff(s, k);
  }

  /** The password expression, read as plain character-class conditions: at least one
      upper-case letter, lower-case letter, digit and special character, and nothing
      outside `[A-Za-z0-9@$!%*?&]`. */
  lemma StrongPasswordSearchIff(s: string)
    ensures Search(StrongPasswordPattern, s) <==>
      s != [] && Only(s, PasswordChar)
      && Contains(s, Upper) && Contains(s, Lower) && Contains(s, Digit) && Contains(s, Special)
  {
    var p := StrongPasswordPattern;
    RepeatToEndIff(s, PasswordChar);
    if Only(s, PasswordChar) {
      forall j | 0 <= j < |s| ensures !IsLineTerminator(s[j]) {
        PasswordCharsAreNotLineTerminators(s[j]);
      }
      LookaheadOnSingleLine(s, Upper);
      LookaheadOnSingleLine(s, Lower);
      LookaheadOnSingleLine(s, Digit);
      LookaheadOnSingleLine(s, Special);
      assert p.lookaheads[0] == Upper && p.lookaheads[1] == Lower;
      assert p.lookaheads[2] == Digit && p.lookaheads[3] == Special;
    }
  }

  /** The name expression accepts exactly the non-empty strings of ASCII letters. */
  lemma LettersSearchIff(s: string)
    ensures Search(LettersPattern, s) <==> s != [] && Only(s, Letter)
  {
    RepeatToEndIff(s, LettersPattern.body);
  }
}
