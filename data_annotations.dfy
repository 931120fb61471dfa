/**
 * The validation attributes the account forms use — Required, StringLength,
 * Compare and EmailAddress — as predicates over a property's value, where
 * `None` is a null string.
 */
module DataAnnotations {
  import opened Wrappers

  /** `char.IsWhiteSpace`: the Unicode space separators, line and paragraph separators, and the controls U+0009..U+000D and U+0085. */
  predicate IsWhiteSpace(c: char)
  {
    var n := c as int;
    (0x09 <= n <= 0x0D) || n == 0x20 || n == 0x85 || n == 0xA0 || n == 0x1680 ||
    (0x2000 <= n <= 0x200A) || n == 0x2028 || n == 0x2029 || n == 0x202F || n == 0x205F || n == 0x3000
  }

  /** Every character of the string is white space (vacuously so for ""). */
  predicate AllWhiteSpace(s: string)
  {
    s == [] || (IsWhiteSpace(s[0]) && AllWhiteSpace(s[1..]))
  }

  /** The string has a character that is not white space. */
  ghost predicate HasVisibleChar(s: string)
  {
    exists i :: 0 <= i < |s| && !IsWhiteSpace(s[i])
  }

  /** `[Required]` with empty strings disallowed: rejects null, empty and all-white-space strings. */
  function Required(value: Option<string>): (ok: bool)
    ensures ok ==> value.Some? && |value.value| > 0
    ensures value.Some? && |value.value| > 0 && !IsWhiteSpace(value.value[0]) ==> ok
  {
    value.Some? && !AllWhiteSpace(value.value)
  }

  /** A required value is present and shows a character that is not white space. */
  lemma {:induction false} RequiredMeansVisible(value: Option<string>)
    ensures Required(value) <==> value.Some? && HasVisibleChar(value.value)
  {
    if value.Some? {
      AllWhiteSpaceMeansNoVisible(value.value);
    }
  }

  lemma {:induction false} AllWhiteSpaceMeansNoVisible(s: string)
    ensures AllWhiteSpace(s) <==> !HasVisibleChar(s)
  {
    if s != [] {
      AllWhiteSpaceMeansNoVisible(s[1..]);
      assert forall i :: 1 <= i < |s| ==> s[i] == s[1..][i - 1];
      if HasVisibleChar(s[1..]) {
        var k :| 0 <= k < |s[1..]| && !IsWhiteSpace(s[1..][k]);
        assert !IsWhiteSpace(s[k + 1]);
      }
    }
  }

  /** `string.Length`: the number of UTF-16 code units; a character beyond U+FFFF takes two. */
  function Utf16Length(s: string): nat
  {
    if s == [] then 0 else (if s[0] as int > 0xFFFF then 2 else 1) + Utf16Length(s[1..])
  }

  /** The UTF-16 length lies between the number of characters and twice that. */
  lemma {:induction false} Utf16LengthBounds(s: string)
    ensures |s| <= Utf16Length(s) <= 2 * |s|
    ensures (forall i :: 0 <= i < |s| ==> s[i] as int <= 0xFFFF) ==> Utf16Length(s) == |s|
  {
    if s != [] {
      Utf16LengthBounds(s[1..]);
      assert forall i :: 1 <= i < |s| ==> s[i] == s[1..][i - 1];
    }
  }

  /** `[StringLength(max, MinimumLength = min)]`: null passes; otherwise the UTF-16 length lies in [min, max]. */
  function StringLength(value: Option<string>, maximumLength: nat, minimumLength: nat): (ok: bool)
    ensures value.None? ==> ok
    ensures ok && value.Some? ==> |value.value| <= maximumLength && minimumLength <= 2 * |value.value|
  {
    if value.None? then true
    else
      Utf16LengthBounds(value.value);
      minimumLength <= Utf16Length(value.value) <= maximumLength
  }

  /** `[Compare(other)]`: the value equals the other property's value (two nulls are equal). */
  predicate Compare(value: Option<string>, other: Option<string>)
  {
    value == other
  }

  /**
   * `[EmailAddress]`: null passes; otherwise the framework's address check,
   * which this model leaves as the parameter `isEmailAddress`.
   */
  predicate EmailAddress(value: Option<string>, isEmailAddress: string -> bool)
  {
    value.None? || isEmailAddress(value.value)
  }
}
