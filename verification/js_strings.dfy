/**
 The two JavaScript string facts the form rules rest on: `String.prototype.length`
 counts UTF-16 code units, and the regular-expression class `\s` is the
 ECMAScript WhiteSpace and LineTerminator characters. A regular expression
 without the `u` flag matches code units, so a character outside the Basic
 Multilingual Plane (two surrogate units) never matches a class of BMP characters.
 */
module JsStrings {

  /** Code units one character occupies in UTF-16. */
  function CodeUnits(c: char): nat
  {
    if c as int > 0xFFFF then 2 else 1
  }

  /** The JavaScript `length` of a string. */
  function Utf16Length(s: string): (n: nat)
    ensures |s| <= n <= 2 * |s|
  {
    if |s| == 0 then 0 else CodeUnits(s[0]) + Utf16Length(s[1..])
  }

  /** On Basic-Multilingual-Plane text the JavaScript length is the character count. */
  lemma {:induction false} Utf16LengthOfBmp(s: string)
    requires forall i :: 0 <= i < |s| ==> s[i] as int <= 0xFFFF
    ensures Utf16Length(s) == |s|
  {
    if |s| > 0 {
      Utf16LengthOfBmp(s[1..]);
    }
  }

  /** Membership in the regular-expression class `\s`. */
  predicate IsWhitespace(c: char)
  {
    || c == '\t' || c == '\n' || c == '\U{B}' || c == '\U{C}' || c == '\r'
    || c == ' ' || c == '\U{A0}' || c == '\U{1680}'
    || ('\U{2000}' <= c <= '\U{200A}')
    || c == '\U{2028}' || c == '\U{2029}' || c == '\U{202F}' || c == '\U{205F}'
    || c == '\U{3000}' || c == '\U{FEFF}'
  }

  /**
   How a regular-expression engine decides `^[class]+$`: one class character,
   then either the end of the input or another match of the same shape.
   */
  predicate MatchesPlus(s: string, inClass: char -> bool)
  {
    |s| >= 1 && inClass(s[0]) && (|s| == 1 || MatchesPlus(s[1..], inClass))
  }

  /** `^[class]+$` matches exactly the non-empty strings made of class characters. */
  lemma {:induction false} MatchesPlusMeans(s: string, inClass: char -> bool)
    ensures MatchesPlus(s, inClass) <==> |s| >= 1 && forall i :: 0 <= i < |s| ==> inClass(s[i])
  {
    if |s| > 1 {
      MatchesPlusMeans(s[1..], inClass);
      assert forall i :: 1 <= i < |s| ==> s[i] == s[1..][i - 1];
    }
  }
}
