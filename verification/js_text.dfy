/** The few JavaScript string primitives the validators and the notification key rely on. */
module JsText {

  /** A character that fits in one UTF-16 code unit. */
  predicate InBmp(c: char) {
    c as int < 0x1_0000
  }

  /** JavaScript's `s.length`: the number of UTF-16 code units, so a character
      outside the Basic Multilingual Plane (an emoji, say) counts twice. */
  function Utf16Length(s: string): (n: nat)
    ensures |s| <= n <= 2 * |s|
  {
    if s == [] then 0 else (if InBmp(s[0]) then 1 else 2) + Utf16Length(s[1..])
  }

  /** JavaScript's `.length` agrees with the character count exactly when every
      character is in the Basic Multilingual Plane. */
  lemma {:induction false} Utf16LengthIsCount(s: string)
    ensures Utf16Length(s) == |s| <==> forall i :: 0 <= i < |s| ==> InBmp(s[i])
  {
    if s != [] {
      Utf16LengthIsCount(s[1..]);
      if forall i :: 0 <= i < |s| ==> InBmp(s[i]) {
        assert forall i :: 0 <= i < |s[1..]| ==> InBmp(s[1..][i]) by {
          forall i | 0 <= i < |s[1..]| ensures InBmp(s[1..][i]) { assert s[1..][i] == s[i + 1]; }
        }
      } else if InBmp(s[0]) {
        var k :| 0 <= k < |s| && !InBmp(s[k]);
        assert s[1..][k - 1] == s[k];
      }
    }
  }

  /** The line terminators that the regular-expression atom `.` refuses to match. */
  predicate IsLineTerminator(c: char) {
    c == '\n' || c == '\r' || c == '\U{2028}' || c == '\U{2029}'
  }

  predicate IsDecimalDigit(c: char) {
    '0' <= c <= '9'
  }

  function DigitChar(d: nat): (c: char)
    requires d < 10
    ensures IsDecimalDigit(c) && DigitValue(c) == d
  {
    ('0' as int + d) as char
  }

  /** `String(n)` for a non-negative integer, as a template literal renders a
      `Date.now()` value: decimal digits without leading zeros. */
  function NatToString(n: nat): (s: string)
    ensures |s| >= 1
    ensures forall i :: 0 <= i < |s| ==> IsDecimalDigit(s[i])
    ensures |s| > 1 ==> s[0] != '0'
    decreases n
  {
    if n < 10 then [DigitChar(n)] else NatToString(n / 10) + [DigitChar(n % 10)]
  }

  function DigitValue(c: char): (d: nat)
    requires IsDecimalDigit(c)
    ensures d < 10
  {
    c as int - '0' as int
  }

  /** The value of a string of decimal digits, read most significant digit first. */
  function DecimalValue(s: string): nat
    requires forall i :: 0 <= i < |s| ==> IsDecimalDigit(s[i])
  {
    if s == [] then 0
    else DecimalValue(s[..|s| - 1]) * 10 + DigitValue(s[|s| - 1])
  }

  /** Reading back the rendered number gives the number. */
  lemma {:induction false} NatToStringRoundTrip(n: nat)
    ensures DecimalValue(NatToString(n)) == n
    decreases n
  {
    var s := NatToString(n);
    if n < 10 {
      assert s[..0] == [];
    } else {
      NatToStringRoundTrip(n / 10);
      assert s[..|s| - 1] == NatToString(n / 10);
    }
  }

  /** Two different numbers never render to the same text. */
  lemma NatToStringInjective(a: nat, b: nat)
    ensures NatToString(a) == NatToString(b) <==> a == b
  {
    if NatToString(a) == NatToString(b) {
      NatToStringRoundTrip(a);
      NatToStringRoundTrip(b);
    }
  }
}
