/**
 * The string predicates the core relies on, as the Java libraries define them:
 * `Character.isWhitespace`, blankness (`StringUtils.isBlank` and the negation
 * of `Assert.hasText`) and `String.endsWith`.
 */
module Text {
  import opened Wrappers

  /** `Character.isWhitespace`: the Unicode space, line and paragraph separators
      other than the non-breaking ones, plus the ASCII controls TAB, LF, VT, FF,
      CR and the four information separators U+001C..U+001F. */
  predicate IsWhitespace(c: char) {
    || c == ' ' || c == '\t' || c == '\n' || c == '\U{000B}' || c == '\U{000C}' || c == '\r'
    || ('\U{001C}' <= c <= '\U{001F}')
    || c == '\U{1680}'
    || ('\U{2000}' <= c <= '\U{2006}') || ('\U{2008}' <= c <= '\U{200A}')
    || c == '\U{2028}' || c == '\U{2029}' || c == '\U{205F}' || c == '\U{3000}'
  }

  /** A string is blank when it holds no character other than whitespace
      (the empty string included). */
  predicate IsBlank(s: string) {
    forall i | 0 <= i < |s| :: IsWhitespace(s[i])
  }

  /** `StringUtils.isBlank` on a nullable string: null counts as blank. */
  predicate IsBlankOrNull(s: Option<string>) {
    s.None? || IsBlank(s.value)
  }

  /** `s.endsWith(suffix)`. */
  predicate EndsWith(s: string, suffix: string) {
    |suffix| <= |s| && s[|s| - |suffix|..] == suffix
  }

  /** Every string ends with what was just appended to it. */
  lemma EndsWithAppended(s: string, t: string)
    ensures EndsWith(s + t, t)
  {
  }
}
